/** The command-line entry points of main.py: `scrape`, `crawl`, and `check-updates` with the
    `update_pages` loop it may run. The network, the sitemap and the output directory are the
    scripts and the store state the other modules use; what the commands print is left out,
    except which URLs `check-updates` lists. */
module Commands {
  import opened Wrappers
  import opened Seqs
  import opened Strings
  import opened Errors
  import opened Records
  import opened Http
  import opened Api
  import opened Storage
  import opened Sitemap
  import opened CrawlWait
  import Urls
  import Config

  /** How a command ends: normally; through `sys.exit(1)`, after the message of `except`
      clause number `handler` of its chain, or after its own failure message when `handler`
      is `None`; or, for `crawl`, when the script of status answers ran out. */
  datatype Ending = Completed | Exit1(handler: Option<nat>) | PollsRanOut

  /** The output directory of a command: `Config(output_dir=args.output).output_dir`. */
  function OutputDir(output: string, env: Config.Env): string {
    Config.NewConfig(None, None, Some(output), env).outputDir
  }

  /** `sys.exit(1)` from inside the `try` of a command, after the message of the first
      handler of the chain that catches `e`. */
  function Reported(e: CrawlerError): Ending {
    Exit1(Dispatch(CommandHandlers, e))
  }

  // ---------------------------------------------------------------- scrape

  /** `scrape_single_url(args)` on a store in state `st`, given what the scrape request
      gave back: an error exits through the handler chain; an answer without `success`
      exits with the command's own message; otherwise the page (`data`, or the whole answer)
      is saved under its generated name, and a save that raises exits through the chain. */
  function ScrapeSpec(dir: string, st: StoreState, scraped: Fetched<ScrapeBody>, now: string,
                      writeOk: bool): (Ending, StoreState)
  {
    match scraped
    case Raised(e) => (Reported(e), st)
    case Got(b) =>
      if !b.success then (Exit1(None), st)
      else
        var p := ScrapedPage(b);
        var (r, st') := SaveSpec(st, dir, p, PageName(p, None), now, writeOk);
        if r.Saved? then (Completed, st') else (Reported(r.error), st')
  }

  /** `scrape_single_url(args)` over an output directory holding `existing` and, maybe, a
      metadata file; `net` answers the scrape requests and `writeOk` says whether writing the
      page file succeeds. */
  method ScrapeSingleUrl(output: string, env: Config.Env, existing: map<string, string>, metaFile: MetaFile,
                         net: Network<ScrapeBody>, now: string, writeOk: bool)
    returns (ending: Ending, final: StoreState)
    ensures (ending, final) == ScrapeSpec(OutputDir(output, env), Opened(existing, metaFile),
                                          RetryFrom(ScrapeVerdict, net, ScrapeTimeouts, 0, 0).result, now, writeOk)
  {
    hide SaveSpec, PageName, LoadMetadata, Config.NewConfig;
    var dir := OutputDir(output, env);
    var store := new MarkdownStorage(dir, existing, metaFile);
    var c := ScrapeUrl(net);
    final := store.State();
    match c.result {
      case Raised(e) =>
        ending := Reported(e);
      case Got(b) =>
        if !b.success {
          ending := Exit1(None);
        } else {
          var r := store.SaveSinglePage(ScrapedPage(b), None, now, writeOk);
          final := store.State();
          ending := if r.Saved? then Completed else Reported(r.error);
        }
    }
  }

  /** A scrape completes exactly when the request answered with `success`, the page file was
      written and the metadata has its "pages" entry; it then adds one file, under a name no
      file had, and points the page's URL at it. A request error is reported by the handler
      of its own class. A save that raises raises a built-in error, so it reaches the generic
      handler (number 4), never the storage one. On every exit the metadata is unchanged. */
  lemma ScrapeOutcome(dir: string, st: StoreState, scraped: Fetched<ScrapeBody>, now: string, writeOk: bool)
    ensures var (e, st') := ScrapeSpec(dir, st, scraped, now, writeOk);
      e.Completed? <==> scraped.Got? && scraped.value.success && writeOk && st.metadata.pages.Some?
    ensures var (e, st') := ScrapeSpec(dir, st, scraped, now, writeOk);
      e.Completed? ==>
        var p := ScrapedPage(scraped.value);
        exists name :: name !in st.files && st'.files.Keys == st.files.Keys + {name}
          && st'.files[name] == PageContent(p) && st'.metadata.pages.Some?
          && Get(st'.metadata.pages.value, PageKey(p)).Some?
          && Get(st'.metadata.pages.value, PageKey(p)).value.file == Some(PathIn(dir, name))
    ensures var (e, st') := ScrapeSpec(dir, st, scraped, now, writeOk);
      scraped.Raised? ==>
        (st' == st && e.Exit1? && e.handler.Some?
         && (scraped.error.ConnectionError? <==> e.handler == Some(0))
         && (scraped.error.TimeoutError? <==> e.handler == Some(1))
         && (scraped.error.ApiError? <==> e.handler == Some(2)))
    ensures var (e, st') := ScrapeSpec(dir, st, scraped, now, writeOk);
      scraped.Got? && scraped.value.success && !e.Completed? ==> e == Exit1(Some(4))
    ensures var (e, st') := ScrapeSpec(dir, st, scraped, now, writeOk);
      !e.Completed? ==> st'.metadata == st.metadata && e != PollsRanOut
  {
    hide PageName, PageContent, ScrapedPage, PathIn;
    match scraped {
      case Raised(err) =>
        CommandHandlersMostSpecific(err);
      case Got(b) =>
        if b.success {
          var p := ScrapedPage(b);
          SaveNeverOverwrites(st, dir, p, PageName(p, None), now, writeOk);
          SaveUpdatesOneEntry(st, dir, p, PageName(p, None), now, writeOk);
          var (r, st') := SaveSpec(st, dir, p, PageName(p, None), now, writeOk);
          if r.Failed? {
            assert r.error.BuiltinError?;
            assert IsInstance(r.error, CommandHandlers[4]);
            assert forall i :: 0 <= i < 4 ==> !IsInstance(r.error, CommandHandlers[i]);
          } else {
            assert r.name !in st.files;
          }
        }
    }
  }

  // ---------------------------------------------------------------- crawl

  /** The wait as `crawl` calls it: limited to `--timeout` seconds, polling every 5, without
      incremental saving. */
  function WebsiteWait(timeout: int, polls: seq<Poll>): WaitConfig {
    WaitConfig(Some(timeout), 5, false, polls, {})
  }

  /** `crawl_website(args)` on a store in state `st`, given the answer to the crawl request:
      without a job handle it exits through the handler chain; otherwise it waits for the
      job; an error of the wait exits through the chain, an answer without pages exits with
      the command's own message, and the pages of any other answer are saved as a batch
      with an index. */
  function CrawlSpec(dir: string, st: StoreState, start: Transport<StartBody>, timeout: int, polls: seq<Poll>,
                     now: string, failures: set<nat>): (Ending, StoreState)
  {
    match StartCrawl(start)
    case Raised(e) => (Reported(e), st)
    case Got(_) =>
      match Run(WebsiteWait(timeout, polls), Start).0
      case OutOfScript => (PollsRanOut, st)
      case Threw(e) => (Reported(e), st)
      case Returned(d) =>
        if d.data == [] then (Exit1(None), st)
        else (Completed, SaveManySpec(st, dir, d.data, Proposals(d.data), true, now, failures).state)
  }

  /** `crawl_website(args)` over an output directory holding `existing` and, maybe, a
      metadata file; `start` answers the crawl request, `polls` are the status answers of the
      wait, and the page with index `i` of the batch fails to write when `i in failures`. */
  method CrawlWebsite(output: string, env: Config.Env, existing: map<string, string>, metaFile: MetaFile,
                      start: Transport<StartBody>, timeout: int, polls: seq<Poll>, now: string, failures: set<nat>)
    returns (ending: Ending, final: StoreState)
    ensures (ending, final) == CrawlSpec(OutputDir(output, env), Opened(existing, metaFile), start, timeout, polls,
                                         now, failures)
  {
    hide SaveManySpec, Proposals, Run, LoadMetadata, Config.NewConfig;
    var dir := OutputDir(output, env);
    var store := new MarkdownStorage(dir, existing, metaFile);
    final := store.State();
    var job := StartCrawl(start);
    if job.Raised? {
      return Reported(job.error), final;
    }
    var o, _ := WaitForCrawl(WebsiteWait(timeout, polls));
    match o {
      case OutOfScript =>
        ending := PollsRanOut;
      case Threw(e) =>
        ending := Reported(e);
      case Returned(d) =>
        if d.data == [] {
          ending := Exit1(None);
        } else {
          var _ := store.SaveMultiplePages(d.data, true, now, failures);
          ending, final := Completed, store.State();
        }
    }
  }

  /** A crawl completes exactly when the job started and the wait returned pages; the store
      then holds the batch, with an index listing every saved page when at least one was
      saved. Every other ending leaves the store as it was: the wait saves nothing. */
  lemma CrawlOutcome(dir: string, st: StoreState, start: Transport<StartBody>, timeout: int, polls: seq<Poll>,
                     now: string, failures: set<nat>)
    ensures var (e, st') := CrawlSpec(dir, st, start, timeout, polls, now, failures);
      e.Completed? <==> StartCrawl(start).Got? && Run(WebsiteWait(timeout, polls), Start).0.Returned?
                          && Run(WebsiteWait(timeout, polls), Start).0.data.data != []
    ensures var (e, st') := CrawlSpec(dir, st, start, timeout, polls, now, failures);
      e.Completed? ==>
        var pages := Run(WebsiteWait(timeout, polls), Start).0.data.data;
        var b := SaveManySpec(st, dir, pages, Proposals(pages), true, now, failures);
        st' == b.state && (|b.saved| > 0 ==> IndexName in st'.files && st'.files[IndexName] == IndexText(b.entries))
    ensures var (e, st') := CrawlSpec(dir, st, start, timeout, polls, now, failures);
      !e.Completed? ==> st' == st
  {
    if StartCrawl(start).Got? {
      var o := Run(WebsiteWait(timeout, polls), Start).0;
      if o.Returned? && o.data.data != [] {
        IndexWrittenIff(st, dir, o.data.data, Proposals(o.data.data), true, now, failures);
      }
    }
  }

  /** As written, a started crawl whose `--timeout` is 0 or negative makes no status request
      and fails on the unbound `status_data`: the generic handler (number 4) reports it. */
  lemma CrawlWithoutTimeLeft(dir: string, st: StoreState, start: Transport<StartBody>, timeout: int, polls: seq<Poll>,
                             now: string, failures: set<nat>)
    requires StartCrawl(start).Got? && timeout <= 0
    ensures CrawlSpec(dir, st, start, timeout, polls, now, failures) == (Exit1(Some(4)), st)
  {
    UsedUpLimitUnbound(WebsiteWait(timeout, polls));
    assert IsInstance(BuiltinError("UnboundLocalError"), CommandHandlers[4]);
  }

  // ---------------------------------------------------------------- update_pages

  /** The counters and the store of `update_pages` part-way through. */
  datatype Tally = Tally(updated: nat, failed: nat, state: StoreState)

  /** The answers of the scrapes `update_pages` makes: `web(i, url)` answers the requests
      for the URL with index `i`. */
  type Web = (nat, string) -> Network<ScrapeBody>

  /** What the scrape of the URL with index `i` gives back. */
  function Scraped(web: Web, i: nat, url: string): Fetched<ScrapeBody> {
    RetryFrom(ScrapeVerdict, web(i, url), ScrapeTimeouts, 0, 0).result
  }

  /** One URL of `update_pages`: a request error or an answer without `success` counts a
      failure; otherwise the page is saved, which counts an update when it succeeds and a
      failure when it raises (the generic handler swallows it). */
  function UpdateOne(dir: string, t: Tally, scraped: Fetched<ScrapeBody>, now: string, writeOk: bool): Tally {
    match scraped
    case Raised(_) => t.(failed := t.failed + 1)
    case Got(b) =>
      if !b.success then t.(failed := t.failed + 1)
      else
        var p := ScrapedPage(b);
        var (r, st') := SaveSpec(t.state, dir, p, PageName(p, None), now, writeOk);
        if r.Saved? then Tally(t.updated + 1, t.failed, st') else Tally(t.updated, t.failed + 1, st')
  }

  /** `update_pages(urls)` from the URL with index `i` on, with the counters and the store at
      `t`; the page of the URL with index `j` fails to write when `j in writeFails`. Every
      URL counts exactly once, as an update or as a failure. */
  function UpdateFrom(dir: string, urls: seq<string>, i: nat, web: Web, writeFails: set<nat>, now: string,
                      t: Tally): (r: Tally)
    requires i <= |urls|
    ensures r.updated + r.failed == t.updated + t.failed + (|urls| - i)
    ensures r.updated >= t.updated && r.failed >= t.failed
    decreases |urls| - i
  {
    if i == |urls| then t
    else UpdateFrom(dir, urls, i + 1, web, writeFails, now,
                    UpdateOne(dir, t, Scraped(web, i, urls[i]), now, i !in writeFails))
  }

  /** `update_pages(urls, config, args)` over the directory `dir` holding `existing` and,
      maybe, a metadata file: the counts it prints and the store it leaves. */
  method UpdatePages(dir: string, existing: map<string, string>, metaFile: MetaFile, urls: seq<string>, web: Web,
                     writeFails: set<nat>, now: string)
    returns (updated: nat, failed: nat, final: StoreState)
    ensures Tally(updated, failed, final)
      == UpdateFrom(dir, urls, 0, web, writeFails, now, Tally(0, 0, Opened(existing, metaFile)))
  {
    hide SaveSpec, PageName, LoadMetadata, RetryFrom, ScrapedPage;
    var store := new MarkdownStorage(dir, existing, metaFile);
    updated, failed := 0, 0;
    var i := 0;
    while i < |urls|
      invariant i <= |urls| && store.outputDir == dir
      invariant UpdateFrom(dir, urls, i, web, writeFails, now, Tally(updated, failed, store.State()))
        == UpdateFrom(dir, urls, 0, web, writeFails, now, Tally(0, 0, Opened(existing, metaFile)))
    {
      var c := ScrapeUrl(web(i, urls[i]));
      match c.result {
        case Raised(_) =>
          failed := failed + 1;
        case Got(b) =>
          if b.success {
            var r := store.SaveSinglePage(ScrapedPage(b), None, now, i !in writeFails);
            if r.Saved? {
              updated := updated + 1;
            } else {
              failed := failed + 1;
            }
          } else {
            failed := failed + 1;
          }
      }
      i := i + 1;
    }
    final := store.State();
  }

  /** On a store whose metadata has its "pages" entry, a URL's step writes a new file exactly
      when it counts an update, and never rewrites an existing one. */
  lemma UpdateOneFiles(dir: string, t: Tally, scraped: Fetched<ScrapeBody>, now: string, writeOk: bool)
    requires t.state.metadata.pages.Some?
    ensures var r := UpdateOne(dir, t, scraped, now, writeOk);
      r.state.metadata.pages.Some? && t.state.files.Keys <= r.state.files.Keys
        && (forall f :: f in t.state.files ==> r.state.files[f] == t.state.files[f])
        && |r.state.files.Keys| == |t.state.files.Keys| + (r.updated - t.updated)
        && r.updated <= t.updated + 1
  {
    if scraped.Got? && scraped.value.success {
      var p := ScrapedPage(scraped.value);
      SaveNeverOverwrites(t.state, dir, p, PageName(p, None), now, writeOk);
      SaveUpdatesOneEntry(t.state, dir, p, PageName(p, None), now, writeOk);
      var (r, st') := SaveSpec(t.state, dir, p, PageName(p, None), now, writeOk);
      if r.Saved? {
        assert st'.files.Keys == t.state.files.Keys + {r.name};
        assert |st'.files.Keys| == |t.state.files.Keys| + 1;
      }
    }
  }

  /** Over a store whose metadata has its "pages" entry, `update_pages` adds exactly one new
      file per update and leaves every file that was there untouched. */
  lemma {:induction false} UpdateFilesGrow(dir: string, urls: seq<string>, i: nat, web: Web, writeFails: set<nat>,
                                           now: string, t: Tally)
    requires i <= |urls| && t.state.metadata.pages.Some?
    ensures var r := UpdateFrom(dir, urls, i, web, writeFails, now, t);
      r.state.metadata.pages.Some? && t.state.files.Keys <= r.state.files.Keys
        && (forall f :: f in t.state.files ==> r.state.files[f] == t.state.files[f])
        && |r.state.files.Keys| == |t.state.files.Keys| + (r.updated - t.updated)
    decreases |urls| - i
  {
    if i < |urls| {
      var t' := UpdateOne(dir, t, Scraped(web, i, urls[i]), now, i !in writeFails);
      UpdateOneFiles(dir, t, Scraped(web, i, urls[i]), now, i !in writeFails);
      UpdateFilesGrow(dir, urls, i + 1, web, writeFails, now, t');
    }
  }

  /** As written, over metadata without a "pages" entry no update can succeed: every save
      raises once the page file is written, and counts as a failure. */
  lemma {:induction false} UpdateWithoutPagesKey(dir: string, urls: seq<string>, i: nat, web: Web,
                                                 writeFails: set<nat>, now: string, t: Tally)
    requires i <= |urls| && t.state.metadata.pages.None?
    ensures var r := UpdateFrom(dir, urls, i, web, writeFails, now, t);
      r.updated == t.updated && r.failed == t.failed + (|urls| - i) && r.state.metadata == t.state.metadata
    decreases |urls| - i
  {
    if i < |urls| {
      var scraped := Scraped(web, i, urls[i]);
      var t' := UpdateOne(dir, t, scraped, now, i !in writeFails);
      if scraped.Got? && scraped.value.success {
        var p := ScrapedPage(scraped.value);
        SaveUpdatesOneEntry(t.state, dir, p, PageName(p, None), now, i !in writeFails);
      }
      assert t'.updated == t.updated && t'.state.metadata == t.state.metadata;
      UpdateWithoutPagesKey(dir, urls, i + 1, web, writeFails, now, t');
    }
  }

  // ---------------------------------------------------------------- check-updates

  /** At most this many URLs are listed with `--show-urls`. */
  const MaxShown: nat := 50

  /** The arguments of `check-updates`. */
  datatype UpdateArgs = UpdateArgs(url: string, output: string, showUrls: bool, autoUpdate: bool)

  /** What `check-updates` reports: the sitemap it read, the path filter, the URLs needing an
      update, those it lists and how many more there are, and the counts and store of
      `update_pages` when it ran. */
  datatype UpdateCheck = UpdateCheck(sitemapUrl: string, pathFilter: Option<string>, updated: seq<string>,
                                     shown: seq<string>, more: nat, run: Option<Tally>)

  /** `f"{parsed.scheme}://{parsed.netloc}"` */
  function BaseUrl(url: string): string {
    var u := Urls.Urlparse(url);
    u.scheme + "://" + u.netloc
  }

  /** The URL's path, unless it is empty or "/". */
  function PathFilter(url: string): Option<string> {
    var path := Urls.Urlparse(url).path;
    if path != "" && path != "/" then Some(path) else None
  }

  /** `check_updates(args)` over the directory holding `existing` and, maybe, a metadata file;
      `entries` is the sitemap as read (empty when it could not be fetched or parsed, which
      the parser reports and swallows). With no URL to update it stops; otherwise it lists
      the first 50 with `--show-urls`, and scrapes them all with `--auto-update`. */
  function CheckSpec(args: UpdateArgs, env: Config.Env, existing: map<string, string>, metaFile: MetaFile,
                     entries: seq<SitemapEntry>, parse: Parser, web: Web, writeFails: set<nat>, now: string): UpdateCheck
  {
    var st := Opened(existing, metaFile);
    var filter := PathFilter(args.url);
    var updated := UpdatedUrls(entries, st.metadata.pages.GetOr([]), filter, parse);
    var sitemap := SitemapUrl(BaseUrl(args.url));
    if updated == [] then UpdateCheck(sitemap, filter, [], [], 0, None)
    else
      var shown := if !args.showUrls then [] else if |updated| <= MaxShown then updated else updated[..MaxShown];
      var more := if args.showUrls && |updated| > MaxShown then |updated| - MaxShown else 0;
      var run := if args.autoUpdate
                 then Some(UpdateFrom(OutputDir(args.output, env), updated, 0, web, writeFails, now, Tally(0, 0, st)))
                 else None;
      UpdateCheck(sitemap, filter, updated, shown, more, run)
  }

  /** `check_updates(args)`: its metadata is only read, and `update_pages` opens the
      directory afresh. */
  method CheckUpdates(args: UpdateArgs, env: Config.Env, existing: map<string, string>, metaFile: MetaFile,
                      entries: seq<SitemapEntry>, parse: Parser, web: Web, writeFails: set<nat>, now: string)
    returns (report: UpdateCheck)
    ensures report == CheckSpec(args, env, existing, metaFile, entries, parse, web, writeFails, now)
  {
    hide UpdatedUrls, UpdateFrom, LoadMetadata, Config.NewConfig, Urls.Urlparse, SitemapUrl;
    var dir := OutputDir(args.output, env);
    var store := new MarkdownStorage(dir, existing, metaFile);
    var filter := PathFilter(args.url);
    var sitemap := SitemapUrl(BaseUrl(args.url));
    var updated := GetUpdatedUrls(entries, store.metadata.pages.GetOr([]), filter, parse);
    if updated == [] {
      return UpdateCheck(sitemap, filter, [], [], 0, None);
    }
    var shown: seq<string> := [];
    var more := 0;
    if args.showUrls {
      shown := if |updated| <= MaxShown then updated else updated[..MaxShown];
      if |updated| > MaxShown {
        more := |updated| - MaxShown;
      }
    }
    var run: Option<Tally> := None;
    if args.autoUpdate {
      var u, f, final := UpdatePages(dir, existing, metaFile, updated, web, writeFails, now);
      run := Some(Tally(u, f, final));
    }
    report := UpdateCheck(sitemap, filter, updated, shown, more, run);
  }

  /** What `check-updates` does with the URLs it finds: they are sitemap URLs, in sitemap
      order, each containing the path filter, which is the URL's path unless that is empty
      or "/"; with `--show-urls` it lists the first 50 and counts the rest, and otherwise
      lists nothing; it scrapes exactly when `--auto-update` is given and some URL needs an
      update, and then every such URL counts once, as an update or a failure. */
  lemma CheckUpdatesGating(args: UpdateArgs, env: Config.Env, existing: map<string, string>, metaFile: MetaFile,
                           entries: seq<SitemapEntry>, parse: Parser, web: Web, writeFails: set<nat>, now: string)
    ensures var r := CheckSpec(args, env, existing, metaFile, entries, parse, web, writeFails, now);
      IsSubsequence(r.updated, Map(entries, EntryUrl))
        && (forall u :: u in r.updated && r.pathFilter.Some? ==> OccursIn(r.pathFilter.value, u))
    ensures var r := CheckSpec(args, env, existing, metaFile, entries, parse, web, writeFails, now);
      var path := Urls.Urlparse(args.url).path;
      (r.pathFilter.None? <==> path == "" || path == "/") && (r.pathFilter.Some? ==> r.pathFilter.value == path)
    ensures var r := CheckSpec(args, env, existing, metaFile, entries, parse, web, writeFails, now);
      |r.shown| <= MaxShown && r.shown <= r.updated
        && (args.showUrls ==> |r.shown| + r.more == |r.updated|)
        && (!args.showUrls ==> r.shown == [] && r.more == 0)
    ensures var r := CheckSpec(args, env, existing, metaFile, entries, parse, web, writeFails, now);
      (r.run.Some? <==> args.autoUpdate && r.updated != [])
        && (r.run.Some? ==> r.run.value.updated + r.run.value.failed == |r.updated|)
  {
    hide Urls.Urlparse, SitemapUrl, UpdatedUrls, UpdateFrom, LoadMetadata, BaseUrl, OutputDir;
    var st := Opened(existing, metaFile);
    UpdatedUrlsShape(entries, st.metadata.pages.GetOr([]), PathFilter(args.url), parse);
  }
}
