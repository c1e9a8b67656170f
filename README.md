# FireCrawl Crawler — a Dafny model

FireCrawl Crawler is a command-line client for a self-hosted Firecrawl service. It can:

- scrape one URL;
- start a crawl, poll it until it ends and save the pages as Markdown files;
- keep a metadata file (`.scrape_metadata.json`) of what was saved and when;
- use the site's sitemap to find pages that changed since they were saved, and rescrape them;
- crawl configured site sections with limits that are fixed or worked out from the sitemap;
- retry fetching the data of a finished job.

This project models that core in Dafny and proves what it promises.

## What the model looks like

One module per source file, plus a few helper modules.

| module | file | models |
|---|---|---|
| `Config` | config.dfy | `Config.__init__` and `get_headers` |
| `Errors` | errors.dfy | the exception hierarchy and the order of the `except` clauses of the commands |
| `Records`, `Http` | records.dfy | the JSON documents the code reads, and one HTTP exchange |
| `Api` | api.dfy | the retries of `scrape_url` and `get_crawl_status`, the job handle of `crawl_website`, and `check_connection` |
| `CrawlWait` | wait.dfy | `wait_for_crawl`, as a specification function `Run` and a method `WaitForCrawl` proved equal to it |
| `Filenames` | filenames.dfy | `_sanitize_filename`, `_generate_filename` and `_ensure_unique_filename` |
| `Storage` | storage.dfy | class `MarkdownStorage` and the metadata file |
| `Sitemap` | sitemap.dfy | `SitemapParser`: `filter_urls`, `get_updated_urls` and the sitemap location |
| `CrawlSections` | crawl_sections.dfy | limit resolution, `crawl_section` and `crawl_all_sections` |
| `Diagnose` | diagnose.dfy | `retry_fetch_data` and `diagnose_section` |
| `Commands` | main.dfy | the `scrape`, `crawl` and `update` commands, and `update_pages` |
| `Utils` | utils.dfy | `get_scrape_stats`, `list_scraped_pages` and `compare_scrape_sessions` |
| `Paths` | paths.dfy | how `pathlib.PurePosixPath` parses a path into an anchor and components and renders it back, and `path / name` |
| `Strings`, `Seqs`, `Urls`, `Wrappers` | | Python string methods, `urlparse`, association lists standing for dicts, and `Option` |

### The outside world

Everything outside the process is a parameter.

- **The network is a script.** `net(i, t)` is what attempt `i` of a call comes back with, made with a client timeout of `t` seconds. It is a response (status code and body), a connection failure, a timeout, or another request failure. The polls of `wait_for_crawl` are a finite sequence of status-call results, each with the seconds it took.
- **Time is an integer clock.** Sleeps and request times add to it. `datetime.now().isoformat()` is a `now` string parameter. `datetime.fromisoformat` is a parser parameter that may fail; its result records whether it is timezone-aware.
- **The file system:**
  - the output directory is a map from file name to text;
  - the path of a file is the string `pathlib` renders for `Path(output_dir) / name`: "./output" becomes "output/" in front of the name, a trailing slash is not doubled, and an empty directory leaves the bare name;
  - the metadata file is `Absent`, `Unparseable` or `Stored(document)`;
  - a page write that fails (`OSError`) comes from a fault parameter.
- **A dict is an association list** that keeps insertion order, as Python dicts do. `get_scraped_urls` and the listings depend on that order.

### Behaviours the code has as written

The model keeps the code's behaviour where it differs from what its comments or messages suggest. The lemma that states each behaviour is named beside it.

- **`wait_for_crawl` with a limit of zero or less** never makes a status call. It then reads the unbound `status_data` and raises `UnboundLocalError`, not the timeout error (`CrawlWait.UsedUpLimitUnbound`). The `crawl` command with `--timeout 0` therefore ends in its generic handler (`Commands.CrawlWithoutTimeLeft`).
- **The same happens at the end of a wait** in which no status call ever succeeded: the timeout branch reads `status_data` before any call has assigned it (`CrawlWait.WaitEnds`).
- **A timeout of a status call** escapes `wait_for_crawl` even when there is no time limit. Only connection errors are counted and retried (`CrawlWait.NoLimitNeverExpires`).
- **A section crawl that returns no pages** asks for the job once more. It asks under the result's own `id` or `jobId`, or "unknown" when the result carries neither (`CrawlSections.RetryJob`). If the second answer is still empty, the warning refers to a `logger` that `crawl_sections.py` never defines, and the `NameError` is caught by the surrounding handler (`CrawlSections.EmptyResultRetriedOnce`).
- **Saving a page again never reuses its file.** `_ensure_unique_filename` always picks a free name, so a re-save writes a new numbered file and points the page's entry at it (`Storage.ResaveWritesFreshFile`).
- **A page whose generated name is `INDEX.md`** is saved under that name when no such file exists yet. `_create_index_file` then replaces it with the index (`Storage.IndexMayReplacePage`).
- **A failed page write in the `scrape` command** is an `OSError`, not a `StorageError`. It reaches the generic handler (`Commands.ScrapeOutcome`).
- **Listings that need a metadata file:**
  - `list_scraped_pages` with details and no metadata file raises `KeyError` on `stats['pages']` (`Utils.ListingShape`);
  - `compare_scrape_sessions` over a directory without a metadata file raises `KeyError` in the same way (`Utils.CompareSessions`).
- **Metadata without a `"pages"` key:**
  - `update_pages` writes each page's file, but the metadata update raises `KeyError`, so every URL counts as failed (`Commands.UpdateWithoutPagesKey`);
  - `save_single_page` raises the same way after writing the file (`Storage.SaveUpdatesOneEntry`).
- **The sitemap fetch swallows its errors.** `fetch_sitemap` catches every exception and `get_all_urls` then returns `[]`, so a sitemap that cannot be fetched or parsed is an empty list of entries.
- **The job handle is never recorded.** The recorded job handle `last_job_id` that `diagnose_section` looks up is read but never written by the code modelled here. The model carries it as part of the metadata document.

## Model

| member | source | states |
|---|---|---|
| `Config.Getenv` | firecrawl_crawler/config.py:26-28 | an unset variable is `None`; a set one gives its value, even an empty one |
| `Config.NewConfig` | firecrawl_crawler/config.py:26-28 | each setting is the truthy argument, else the environment variable, else the default URL or `./output` (the key has no default) |
| `Config.Headers` | firecrawl_crawler/config.py:30-35 | JSON content type always; `Authorization: Bearer <key>` exactly when the key is truthy; no other header |
| `Config.DefaultsWithoutEnvironment` | firecrawl_crawler/config.py:26-35 | with no arguments and no environment: localhost:3002, no key, `./output`, and only the content-type header |
| `Config.AuthorizationSource` | firecrawl_crawler/config.py:27-34 | the request is authorised exactly when a key argument or a non-empty `FIRECRAWL_API_KEY` is given, and an argument key wins |
| `Errors.Dispatch` | main.py:54-72 | the handler chosen is the first `except` clause the exception is an instance of; none earlier matches; `None` only when no clause matches |
| `Errors.CommandHandlersMostSpecific` | main.py:54-72 | every crawler error is handled; connection errors go to the first clause and timeouts to the second although both subclass the API error, other API errors to the third, storage errors to the fourth |
| `Records.PageKey` | firecrawl_crawler/storage.py:167 | a page is tracked under its truthy `metadata.url`, else its `url`, else "unknown" |
| `Records.ScrapedPage` | main.py:48 | the saved page is the answer's `data` when present, else the whole answer |
| `Api.StatusTimeouts` | firecrawl_crawler/api.py:385 | three status attempts when connection errors are retried, one otherwise |
| `Api.RetryShape` | firecrawl_crawler/api.py:144-280 | the retry loop stops within the attempts allowed; every attempt before the last asked to retry; the time taken is the transfer times plus the delays of the retried attempts; the last attempt's verdict is the result, and the fall-through error is raised only after a retry on the last attempt |
| `Api.RetryLoop` | firecrawl_crawler/api.py:144-280 | the loop computes the retry specification |
| `Api.ScrapeUrl` | firecrawl_crawler/api.py:106-280 | `scrape_url` is the retry loop with timeouts 120/150/180 s and its verdicts |
| `Api.ScrapeUrlPolicy` | firecrawl_crawler/api.py:140-277 | 1 to 3 attempts with sleeps of 2 and 5 s between them; only a 408, a connection failure, a timeout, another request error or an unreadable body is retried; a 2xx answer is returned; any other error status raises an API error at once; three 408s raise the server-timeout error; the fall-through error is never reached |
| `Api.GetCrawlStatus` | firecrawl_crawler/api.py:370-440 | `get_crawl_status` is the retry loop with 30 s timeouts and its verdicts |
| `Api.GetCrawlStatusPolicy` | firecrawl_crawler/api.py:385-437 | only connection failures are retried, up to 3 (or 1) attempts; the connection error is raised exactly when all of them failed to connect; a timeout raises the timeout error; a 2xx answer is returned; every error raised is a connection, timeout or API error |
| `Api.StartCrawlJobId` | firecrawl_crawler/api.py:318-368 | a job handle is returned exactly when a 2xx answer carries a truthy `id` or `jobId`; `id` wins; a 2xx answer without one raises the no-job-id API error |
| `Api.CheckConnectionAlternative` | firecrawl_crawler/api.py:61-104 | true when the root answers at all, or when it fails to connect or times out and `/v1` answers, or when both do and `HEAD /` answers; any other request error ends it false |
| `Api.CheckConnection` | firecrawl_crawler/api.py:28-59 | a successful health check is true; another error status except 404, a connection failure or a timeout is false; a 404 or an unexpected failure gives the fallback's answer |
| `CrawlWait.DataWaitBudget` | firecrawl_crawler/api.py:625-629 | the wait for data is at most 60 s and never longer than the time left |
| `CrawlWait.FinalCheck` | firecrawl_crawler/api.py:652-659 | the final status call moves forward in the script and touches neither the saves nor the counters |
| `CrawlWait.AwaitData` | firecrawl_crawler/api.py:624-659 | the wait for data leaves the saves, the connection-error count and the poll order as they were, and either keeps or resets the completed-without-data count |
| `CrawlWait.CompletedEmpty` | firecrawl_crawler/api.py:604-689 | the third completed-without-data answer is returned as it is; a second one sleeps one poll interval and polls again; only the first waits for data |
| `CrawlWait.MainTurn` | firecrawl_crawler/api.py:475-713 | each turn of the main loop consumes at least one poll |
| `CrawlWait.SaveNewPages` | firecrawl_crawler/api.py:548-567 | the incremental save loop computes `SaveNew`: each page whose key is not yet recorded is handed to the store and its key recorded, and the first save that raises ends the batch |
| `CrawlWait.SaveRemainingPages` | firecrawl_crawler/api.py:585-603 | the save on completion computes `SaveRemaining`: the pages whose keys were not recorded are handed to the store in order until one raises |
| `CrawlWait.AwaitDataLoop` | firecrawl_crawler/api.py:624-659 | the data-wait loop and final check compute `AwaitData` |
| `CrawlWait.FinalCheckCall` | firecrawl_crawler/api.py:652-659 | the last call of the data wait computes `FinalCheck` |
| `CrawlWait.WaitForCrawl` | firecrawl_crawler/api.py:442-728 | the polling loop computes the specification `Run` of the whole wait |
| `CrawlWait.SaveNewKeepsLedger` | firecrawl_crawler/api.py:548-567 | an incremental batch keeps `saved_page_urls` in step with the saves: a key is recorded after each save that did not raise, and a key is handed to the store again only after its save raised |
| `CrawlWait.SaveRemainingHandsUnsaved` | firecrawl_crawler/api.py:585-603 | the save on completion hands the store only pages whose keys were not yet saved |
| `CrawlWait.SaveRemainingWithoutFailures` | firecrawl_crawler/api.py:585-603 | when no save raises, exactly the unsaved pages are handed over, in the order of `data` |
| `CrawlWait.AwaitDataEnds` | firecrawl_crawler/api.py:624-659 | a data wait that returns gives back a document with pages that one of its calls returned; one that raises passes on the exception of one of its calls |
| `CrawlWait.CompletedEmptyEnds` | firecrawl_crawler/api.py:604-689 | when the completed-without-data branch ends the wait, the ending is one of those the wait can have |
| `CrawlWait.MainTurnKeeps` | firecrawl_crawler/api.py:475-713 | each turn keeps the loop invariant: the error count is the run of connection failures just before the next call, `status_data` is unbound only while no call has succeeded, and the saves agree with the recorded keys; an ending is explained |
| `CrawlWait.RunEnds` | firecrawl_crawler/api.py:475-728 | from any state satisfying the loop invariant, the wait ends in an explained way with the save ledger kept |
| `CrawlWait.WaitEnds` | firecrawl_crawler/api.py:442-728 | a wait returns a document one of its calls returned, which has pages or says completed; or raises five consecutive connection failures, a call's exception, the job's failure message, or the limit error; and it saves a page again only after a failed save |
| `CrawlWait.PersistentNeedsFiveFailures` | firecrawl_crawler/api.py:479-492 | the persistent-connection error is raised only after five status calls in a row failed to connect |
| `CrawlWait.NoLimitNeverExpires` | firecrawl_crawler/api.py:475-728 | without a time limit the wait never raises the timeout-of-wait error; it raises only a status call's own error, the persistent-connection error or the job's failure |
| `CrawlWait.FailuresGiveUp` | firecrawl_crawler/api.py:479-492 | five connection failures in a row always end the wait with the persistent-connection error |
| `CrawlWait.UsedUpLimitUnbound` | firecrawl_crawler/api.py:475-721 | a limit of zero or less makes no call and raises `UnboundLocalError` |
| `Filenames.ReplaceForbidden` | firecrawl_crawler/storage.py:92 | the replacement keeps the length |
| `Filenames.ReplaceForbiddenSafe` | firecrawl_crawler/storage.py:92 | each of `<>:"/\|?*` becomes a dash, every other character stays, and none of them is left |
| `Filenames.SkipRun` | firecrawl_crawler/storage.py:98 | a run of dashes and whitespace is skipped, leaving a suffix that does not start with one |
| `Filenames.CollapseRunsShape` | firecrawl_crawler/storage.py:98 | collapsing never lengthens the text, keeps it empty exactly when it was empty, and turns a leading run into one dash |
| `Filenames.CollapseRunsKeepsSafe` | firecrawl_crawler/storage.py:98 | collapsing adds no forbidden character |
| `Filenames.CollapseRunsNoSpace` | firecrawl_crawler/storage.py:98 | after collapsing, no whitespace is left |
| `Filenames.CollapseRunsNoDoubleDash` | firecrawl_crawler/storage.py:98 | after collapsing, no two dashes are adjacent |
| `Filenames.Truncate` | firecrawl_crawler/storage.py:96 | the result is the prefix of exactly `min(200, len(text))` characters |
| `Filenames.TrimmedSafe` | firecrawl_crawler/storage.py:92-96 | after replacing, stripping `. ` and cutting, the text has at most 200 characters, no forbidden one, and does not start with a dot |
| `Filenames.SanitizeSafe` | firecrawl_crawler/storage.py:81-99 | a sanitised name is non-empty, at most 200 characters, starts with no dot, and holds no forbidden character, no whitespace and no double dash |
| `Filenames.GenerateFilenameSafe` | firecrawl_crawler/storage.py:101-126 | a generated name ends in `.md`, is more than the extension, starts with no dot, and holds no forbidden character or whitespace |
| `Filenames.WithMdSafe` | firecrawl_crawler/storage.py:123-124 | `.md` is added only when missing, and adding it keeps the name safe |
| `Filenames.TitleDecidesName` | firecrawl_crawler/storage.py:112-113 | a truthy title alone decides the name; the URL plays no part |
| `Filenames.LastSegmentNamesPage` | firecrawl_crawler/storage.py:115-118 | without a title, a URL whose path has segments is named after its last segment |
| `Filenames.HostNamesPage` | firecrawl_crawler/storage.py:114-120 | without a title, a URL whose path has no segment is named after its host |
| `Filenames.SuffixStart` | firecrawl_crawler/storage.py:141-142 | the suffix starts at a dot that is neither the first nor the last character |
| `Filenames.StemSuffix` | firecrawl_crawler/storage.py:141-142 | stem and suffix together give back the name |
| `Filenames.NumberedInjective` | firecrawl_crawler/storage.py:146 | different counters give different names `stem_N.suffix` |
| `Filenames.TriedStep` | firecrawl_crawler/storage.py:145-147 | each turn tries one new alternative |
| `Filenames.TriedShrinks` | firecrawl_crawler/storage.py:145-147 | trying a taken alternative leaves fewer untried names in the directory, so the loop ends |
| `Filenames.FreeCounter` | firecrawl_crawler/storage.py:143-147 | the counter reached is free and every smaller counter is taken |
| `Filenames.FirstFreeCounter` | firecrawl_crawler/storage.py:143-147 | the loop stops at the smallest free counter and no other |
| `Filenames.UniqueName` | firecrawl_crawler/storage.py:128-149 | the name chosen is not in the directory; a free proposal is kept; otherwise it is `stem_k.suffix` with every smaller counter taken |
| `Filenames.EnsureUniqueFilename` | firecrawl_crawler/storage.py:128-149 | the loop over the directory computes `UniqueName` |
| `Storage.LoadMetadata` | firecrawl_crawler/storage.py:26-38 | a readable file gives its document; a missing or unreadable one gives empty `pages` and no `last_crawl` |
| `Storage.PathInDirectory` | firecrawl_crawler/storage.py:177-192 | the path of a saved file is the directory as `pathlib` renders it, with a slash after its components, followed by the name; under the default `./output` it is `output/<name>` |
| `Storage.Heading` | firecrawl_crawler/storage.py:180 | the page heading is the truthy title, else "Untitled" |
| `Storage.PageTextInjective` | firecrawl_crawler/storage.py:180-183 | a saved file determines its title, source URL and Markdown when the title and URL are single lines |
| `Storage.SaveNeverOverwrites` | firecrawl_crawler/storage.py:151-192 | a save never changes an existing file; a successful one adds exactly one new file holding the page text and returns its path; a failed write changes nothing |
| `Storage.SaveUpdatesOneEntry` | firecrawl_crawler/storage.py:44-58 | after a save the page's entry names the new path, `now` and the file's UTF-8 size; no other entry changes; the metadata file is rewritten; distinct keys stay distinct; without `pages` the save raises and the metadata stays |
| `Storage.ResaveWritesFreshFile` | firecrawl_crawler/storage.py:177-190 | saving the same page twice writes two files with the same text and the entry points at the second |
| `Storage.SavedIffWritten` | firecrawl_crawler/storage.py:151-192 | a save reports a path exactly when its write works, and the `pages` key stays |
| `Storage.IndexTitle` | firecrawl_crawler/storage.py:219 | the index lists the page's title, or "Untitled" when the key is absent |
| `Storage.IndexUrl` | firecrawl_crawler/storage.py:220 | the index lists the truthy `metadata.url`, else `url`, else "" |
| `Storage.SaveLoopSkipsFailure` | firecrawl_crawler/storage.py:212-227 | a page whose save raises leaves the batch as it was: no path, no index entry, no file and no metadata change, so the next page is saved on the same store |
| `Storage.KeptInOrder` | firecrawl_crawler/storage.py:212-227 | the pages whose save did not raise are a subsequence of the input, in page order |
| `Storage.SaveLoopListsKept` | firecrawl_crawler/storage.py:212-227 | the index entries carry the titles and URLs of exactly the pages whose save did not raise, in page order |
| `Storage.SaveLoopCounts` | firecrawl_crawler/storage.py:209-227 | one path and one index entry per page saved, the path naming the entry's file, and the file exists |
| `Storage.SaveLoopWithoutPages` | firecrawl_crawler/storage.py:209-227 | without `pages` nothing is reported saved and the metadata is unchanged |
| `Storage.Proposals` | firecrawl_crawler/storage.py:175 | one proposed name per page |
| `Storage.ProposalsAt` | firecrawl_crawler/storage.py:175 | each proposal is the page's generated name |
| `Storage.IndexLayout` | firecrawl_crawler/storage.py:242-253 | the index is the header with the count, then one section per entry, in order |
| `Storage.IndexWrittenIff` | firecrawl_crawler/storage.py:229-233 | `INDEX.md` is written exactly when asked and at least one page was saved; otherwise the store is what the loop left |
| `Storage.IndexMayReplacePage` | firecrawl_crawler/storage.py:177-253 | a page named `INDEX.md` is saved and recorded under that path, and then the index text replaces it |
| `Storage.MarkdownStorage.constructor` | firecrawl_crawler/storage.py:14-24 | the store opens on the directory and loads the metadata |
| `Storage.MarkdownStorage.ScrapedUrls` | firecrawl_crawler/storage.py:60-67 | the URLs listed are exactly those with an entry |
| `Storage.MarkdownStorage.PageInfo` | firecrawl_crawler/storage.py:69-79 | a page has information exactly when its URL is listed |
| `Storage.MarkdownStorage.UpdatePageMetadata` | firecrawl_crawler/storage.py:44-58 | the entry is set to the path, `now` and the file's size (0 when missing); `last_crawl` becomes `now`; the file is rewritten; without `pages` the update raises and nothing changes |
| `Storage.MarkdownStorage.SaveSinglePage` | firecrawl_crawler/storage.py:151-192 | the save changes the store as `SaveSpec` says: unique name, page text, metadata entry |
| `Storage.MarkdownStorage.CreateIndexFile` | firecrawl_crawler/storage.py:235-254 | `INDEX.md` is written with the index text and nothing else changes |
| `Storage.MarkdownStorage.SaveMultiplePages` | firecrawl_crawler/storage.py:194-233 | the batch saves the pages in order, skips the ones that raise, returns the saved paths and writes the index as `SaveManySpec` says |
| `Sitemap.After` | firecrawl_crawler/sitemap.py:161-164 | comparing a naive and an aware time raises; otherwise later means a later instant |
| `Sitemap.SitemapUrl` | firecrawl_crawler/sitemap.py:19-20 | the sitemap is `sitemap.xml` under the base URL with its trailing slashes removed |
| `Sitemap.SitemapUrlIgnoresTrailingSlash` | firecrawl_crawler/sitemap.py:19-20 | a trailing slash on the base URL makes no difference |
| `Sitemap.DateStepSnoc` | firecrawl_crawler/sitemap.py:110-124 | the date filter goes entry by entry |
| `Sitemap.FilterUrlsKeeps` | firecrawl_crawler/sitemap.py:86-126 | the result keeps the order; an entry is kept exactly when it contains a truthy path filter and, when a date is given, it has no lastmod, or its lastmod cannot be parsed or compared, or it is later |
| `Sitemap.FilterUrls` | firecrawl_crawler/sitemap.py:86-126 | the two passes compute the filter's specification |
| `Sitemap.UpdatedUrlsSnoc` | firecrawl_crawler/sitemap.py:146-171 | the updated list goes entry by entry |
| `Sitemap.GetUpdatedUrls` | firecrawl_crawler/sitemap.py:128-173 | the loop over the sitemap computes the updated-URL specification |
| `Sitemap.UpdatedUrlsShape` | firecrawl_crawler/sitemap.py:128-173 | the result is a subsequence of the sitemap URLs; each contains the path filter; every unscraped URL that passes the filter is in it |
| `Sitemap.KnownUrlRule` | firecrawl_crawler/sitemap.py:154-168 | a scraped URL without both dates is skipped; with comparable dates it is included exactly when modified later; with an unparseable or naive/aware pair it is included |
| `CrawlSections.TimesOneAndAHalf` | crawl_sections.py:85 | `int(x * 1.5)` truncates toward zero |
| `CrawlSections.ComputedTimeout` | crawl_sections.py:79-87 | the computed timeout lies between 60 and 3600 s |
| `CrawlSections.TimesOneAndAHalfMonotone` | crawl_sections.py:85 | the buffered time never falls as the time grows |
| `CrawlSections.ComputedTimeoutMonotone` | crawl_sections.py:79-87 | a larger crawl never gets a shorter computed timeout |
| `CrawlSections.Resolve` | crawl_sections.py:53-96 | a limit the section sets is kept; one left open takes the sitemap's depth or page count, or the computed timeout, when it found pages, else 2 / 50 / 600 |
| `CrawlSections.FixedSectionIgnoresSitemap` | crawl_sections.py:57 | a section that sets all three limits gets them, whatever the sitemap says |
| `CrawlSections.ResolveLimits` | crawl_sections.py:53-96 | the step-by-step resolution computes `Resolve` |
| `CrawlSections.RetryJob` | crawl_sections.py:150 | the retry asks for the result's truthy `id`, else its `jobId`, else "unknown" |
| `CrawlSections.CrawlSection` | crawl_sections.py:43-195 | the section crawl computes its specification: resolve, start, wait, save or retry once |
| `CrawlSections.SectionExitRule` | crawl_sections.py:43-195 | the command exits exactly when the section is unknown, the start fails or the wait raises; an exit leaves the disk as it was |
| `CrawlSections.EmptyResultRetriedOnce` | crawl_sections.py:139-191 | an empty result leads to one more status request under `RetryJob`; pages from it are saved; a still-empty answer ends in the `NameError` and saves nothing; neither exits |
| `CrawlSections.CrawlAllStops` | crawl_sections.py:229-240 | the run stops only at a section that exits, and then at the first one, and ends on the disk the sections crawled left |
| `CrawlSections.CrawlAllInOrder` | crawl_sections.py:229-240 | the `i`-th outcome is the `i`-th configured section crawled over the disk the sections before it left |
| `CrawlSections.CrawlAllSections` | crawl_sections.py:229-240 | the loop computes that run |
| `Diagnose.FetchShape` | diagnose_crawl.py:99-166 | the attempts run from 1 up to `max_retries`; each one before the last continued; data is returned exactly when the last found pages |
| `Diagnose.RetryFetchBounded` | diagnose_crawl.py:99-166 | at most `max_retries` requests; success exactly when the last request returned pages, which are then the ones saved |
| `Diagnose.GrowingPausesTotal` | diagnose_crawl.py:122-125 | the pauses `10·a` add up to `5·(m(m-1) - a(a-1))` seconds |
| `Diagnose.PatientBackoff` | diagnose_crawl.py:120-133 | while the job reports completed with pages but no data, every attempt is made and the pauses grow |
| `Diagnose.PatientBackoffTotal` | diagnose_crawl.py:120-133 | then the command gives up after `max_retries` requests and `5·m·(m-1)` seconds |
| `Diagnose.ScrapingUntilTheEnd` | diagnose_crawl.py:138-142 | a job still scraping is polled every 10 s until the attempts run out |
| `Diagnose.RetryFetchData` | diagnose_crawl.py:83-166 | the retry loop reports success exactly when pages arrived, and saves them with the index |
| `Diagnose.DiagnoseSection` | diagnose_crawl.py:169-204 | a status check is made against a non-empty API URL |
| `Diagnose.DiagnoseSectionChecksRecordedJob` | diagnose_crawl.py:169-199 | a job is checked exactly when the section exists and its metadata records a truthy `last_job_id`; the URL defaults to localhost:3002; a missing configuration or section exits |
| `Commands.ScrapeSingleUrl` | main.py:21-72 | the command computes its specification |
| `Commands.ScrapeOutcome` | main.py:37-72 | the scrape completes exactly when the answer succeeds, the write works and there are `pages`; a new file then holds the page and the entry points at it; raised errors go to the connection, timeout and API handlers; a failed save goes to the generic handler; any other ending leaves the metadata |
| `Commands.CrawlWebsite` | main.py:75-141 | the command computes its specification |
| `Commands.CrawlOutcome` | main.py:92-141 | the crawl completes exactly when it starts and the wait returns pages; those are saved with the index; otherwise nothing changes |
| `Commands.CrawlWithoutTimeLeft` | main.py:106-141 | with a timeout of zero or less a started crawl ends in the generic handler and saves nothing |
| `Commands.UpdateFrom` | main.py:221-243 | each URL counts once, as updated or as failed, and the counts only grow |
| `Commands.UpdatePages` | main.py:210-247 | the loop computes the tally of `UpdateFrom` |
| `Commands.UpdateOneFiles` | main.py:222-243 | one URL adds at most one file, only when it counts as updated, and changes no existing file |
| `Commands.UpdateFilesGrow` | main.py:221-243 | the run adds exactly one new file per updated URL and changes no existing file |
| `Commands.UpdateWithoutPagesKey` | main.py:221-243 | without `pages` in the metadata every URL counts as failed and the metadata stays |
| `Commands.CheckUpdates` | main.py:144-207 | the command computes its specification |
| `Commands.CheckUpdatesGating` | main.py:156-196 | the updated URLs come from the sitemap in order and contain the path filter; the filter is the URL's path unless it is empty or "/"; at most 50 URLs are shown, the first ones, and "more" counts the rest; pages are rescraped exactly when auto-update is on and something changed, each counted once |
| `Utils.GetScrapeStats` | firecrawl_crawler/utils.py:7-40 | the size loop computes the statistics: zeros without a metadata file, a JSON error for an unreadable one, else the page count, last crawl and summed size |
| `Utils.SizeSumPut` | firecrawl_crawler/utils.py:31-33 | setting an entry changes the total by the new size minus the old |
| `Utils.StatsAfterSave` | firecrawl_crawler/utils.py:27-40 | after a save, the statistics count one more page exactly when it was new, the size changes by the new file's UTF-8 size less the old one, and the last crawl is `now` |
| `Utils.ListEntries` | firecrawl_crawler/utils.py:62-66 | the listing succeeds exactly when each entry has a file and a time, and lists them in order; otherwise `KeyError` |
| `Utils.Head` | firecrawl_crawler/utils.py:62 | the first 20 entries |
| `Utils.ListScrapedPages` | firecrawl_crawler/utils.py:43-69 | the loop computes the listing |
| `Utils.ListingShape` | firecrawl_crawler/utils.py:43-69 | at most 20 pages are listed, the first ones, and the rest are counted; nothing is listed without details; the listing raises exactly on an unreadable file, or with details on a missing file or an incomplete entry among the first 20 |
| `Utils.BelowIrreflexive` | firecrawl_crawler/utils.py:93-95 | string order is irreflexive |
| `Utils.BelowTransitive` | firecrawl_crawler/utils.py:93-95 | string order is transitive |
| `Utils.BelowTotal` | firecrawl_crawler/utils.py:93-95 | string order is total |
| `Utils.BelowAsymmetric` | firecrawl_crawler/utils.py:93-95 | string order is asymmetric |
| `Utils.InsertSorted` | firecrawl_crawler/utils.py:93-95 | inserting keeps a sorted list sorted and adds just that element |
| `Utils.SortedSetCorrect` | firecrawl_crawler/utils.py:93-95 | `sorted(set(xs))` is strictly sorted with the same members |
| `Utils.SortedUnique` | firecrawl_crawler/utils.py:93-95 | two strictly sorted lists with the same members are equal |
| `Utils.CompareSessions` | firecrawl_crawler/utils.py:72-96 | the comparison raises exactly when a metadata file is not readable (a JSON error first, else `KeyError`); otherwise the three lists are sorted and hold the URLs only in the first, only in the second, and in both |
| `Utils.CompareSymmetric` | firecrawl_crawler/utils.py:72-96 | comparing the other way round swaps the first two lists and keeps the third |
| `Strings.RStrip` | firecrawl_crawler/sitemap.py:19 | `rstrip('/')` removes exactly the trailing slashes |
| `Strings.StripChars` | firecrawl_crawler/storage.py:94 | `strip('. ')` leaves no dot or space at either end |
| `Strings.ReplaceAll` | firecrawl_crawler/sitemap.py:162 | `replace('Z', '+00:00')` leaves no `Z` and adds nothing else |
| `Strings.NatToStringRoundTrip` | firecrawl_crawler/storage.py:146 | the counter is printed in decimal and reads back as itself |
| `Strings.Utf8LengthAppend` | firecrawl_crawler/storage.py:55 | the file size of the page text is the sum of its parts' UTF-8 sizes |
| `Strings.JoinSplit` | firecrawl_crawler/storage.py:116 | `split('/')` loses nothing |
| `Urls.Urlparse` | main.py:158 | `urlparse` gives a host with no `/` and a path with no query or fragment |
| `Paths.Root` | firecrawl_crawler/storage.py:21 | the anchor is "", "/" or "//", and is non-empty exactly when the path starts with a slash |
| `Paths.Components` | firecrawl_crawler/storage.py:21 | the components kept are non-empty, never ".", and hold no slash |
| `Paths.PathStr` | firecrawl_crawler/storage.py:190 | a path never renders as the empty string |
| `Paths.ParseRendered` | firecrawl_crawler/storage.py:190 | parsing a rendered path gives back its anchor and components, so rendering is idempotent |
| `Paths.JoinedName` | firecrawl_crawler/storage.py:177 | a file name that is one component lands directly in the directory: the anchor, the components each followed by a slash, then the name |
| `Paths.CommonDirectories` | firecrawl_crawler/storage.py:177-192 | `./output` gives `output/<name>`, `out/` gives `out/<name>` and the empty directory the bare name |
| `Urls.Segments` | firecrawl_crawler/storage.py:116 | the path segments kept are non-empty and hold no slash |

## Left out

- **HTTP, XML and JSON libraries.** `requests`, `xml.etree`, `json` and `python-dotenv` are not modelled; responses, sitemaps and documents are values. `fetch_sitemap`, `parse_sitemap` and `get_all_urls` therefore reduce to the list of entries they yield (errors give `[]`).
- **`SitemapParser.analyze_section`** is not part of this model. Its result (page count and depth) is a parameter of the section crawl.
- **Logging, `print` and the wording of messages.** `check_job_status` in diagnose_crawl.py only prints a status document and is not modelled. Neither is the health check that only picks the wording of the connection errors.
- **The clock.** `time.time`, `time.sleep` and `datetime.now` are an integer clock and a `now` parameter. Durations are whole seconds. `_update_page_metadata` reads `datetime.now()` twice, for `scraped_at` and for `last_crawl` (storage.py:54 and 57); the model uses one `now` for both, so the two are equal in the model and may differ by a tick in the program.
- **Script exhaustion.** A network script that runs out gives `OutOfScript` / `PollsRanOut`. This ending is an artefact of bounding the script and has no counterpart in the program.
- **Floating point.** `get_scrape_stats` reports `round(total / 1048576, 2)` MB; the model keeps the exact byte total. `int(x * 1.5)` is computed exactly, which agrees with the float for the integers involved.
- **JSON `null`** is read the same as an absent key; the code's `.get` defaults differ only for explicit nulls.
- **Non-object metadata.** A metadata file holding valid JSON that is not an object is not modelled.
- **Process-level behaviour.** `argparse`, `sys.exit` codes beyond "exit 1 through handler k", and reading `sections_config.json` from disk are not modelled.
- **Index and metadata writes** are assumed to succeed; only page writes may fail.
- **`urlparse` round trip.** `Urls.Urlparse` states the shape of its parts, not that they recompose the URL.
- Urls.Urlparse: the `ValueError` that `urlparse` raises on a malformed network location (an unbalanced `[`, say) is not modelled. `Urls.Urlparse`, `Filenames.GenerateFilename` and `Commands.CheckUpdates` are total, so a save that would raise there, and the uncaught error of `check_updates` at main.py:158, are missing.
- Sitemap.GetUpdatedUrls: a sitemap entry always carries a string URL. An empty `<loc/>` gives `None` in the program (sitemap.py:63); under a path filter `path_filter not in url` then raises `TypeError`, which `check_updates` catches in its generic handler, and without a filter the `None` is appended to the updated list. Neither path is modelled.
- Paths.PathStr: only POSIX paths are modelled; Windows drive letters and backslash separators are not.
- **Concurrency.** None in the source.
