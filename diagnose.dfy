/** The diagnostic commands of diagnose_crawl.py: fetching the pages of a finished crawl job
    again, with growing pauses (`retry_fetch_data`), and looking up the last crawl job
    recorded for a section (`diagnose_section`).

    The status request of attempt `k` (numbered from 1) is `net(k)`: the document, or the
    exception `get_crawl_status` raised after its own retries. Sleeps add to a counter of
    seconds. */
module Diagnose {
  import opened Wrappers
  import opened Records
  import opened Seqs
  import opened Api
  import opened Storage

  /** What one attempt decides: the pages were found, the command gives up, or it sleeps for
      some seconds (possibly none) and goes on to the next attempt. */
  datatype Step = Found(pages: seq<Page>) | GiveUp | Next(sleep: nat)

  /** Attempt `attempt` of `maxRetries`. A missing `status` reads "unknown" and a missing
      `total` reads 0. Pages end the search. A completed job that reports pages but
      delivered none, and an exception, are retried after 10 seconds per attempt made, and
      end the search on the last attempt. A completed job with no pages and a failed job
      end it at once. A job still scraping is polled again after 10 seconds, even after the
      last attempt. Any other status is polled again after 10 seconds, or, after the last
      attempt, falls through without a pause. */
  function AttemptStep(r: Fetched<StatusData>, attempt: nat, maxRetries: int): Step {
    match r
    case Raised(_) => if attempt < maxRetries then Next(10 * attempt) else GiveUp
    case Got(sd) =>
      var status := sd.status.GetOr("unknown");
      var total := sd.total.GetOr(0);
      if sd.data != [] then Found(sd.data)
      else if status == "completed" && total > 0 then (if attempt < maxRetries then Next(10 * attempt) else GiveUp)
      else if status == "completed" && total == 0 then GiveUp
      else if status == "scraping" then Next(10)
      else if status == "failed" then GiveUp
      else if attempt < maxRetries then Next(10)
      else Next(0)
  }

  /** How a search ends: the pages found, if any, the number of status requests made, and
      the seconds slept. */
  datatype Fetch = Fetch(pages: Option<seq<Page>>, requests: nat, slept: nat)

  /** The search from attempt `attempt` on, `slept` seconds having passed. */
  function FetchFrom(net: nat -> Fetched<StatusData>, maxRetries: int, attempt: nat, slept: nat): Fetch
    requires 1 <= attempt
    decreases if attempt <= maxRetries then maxRetries - attempt + 1 else 0
  {
    if attempt > maxRetries then Fetch(None, attempt - 1, slept)
    else match AttemptStep(net(attempt), attempt, maxRetries)
      case Found(pages) => Fetch(Some(pages), attempt, slept)
      case GiveUp => Fetch(None, attempt, slept)
      case Next(s) => FetchFrom(net, maxRetries, attempt + 1, slept + s)
  }

  /** The search makes one request per attempt, from `attempt` on, and at most up to
      `maxRetries`; every request but the last decided to go on; the last one decides the
      result, which has pages exactly when that request delivered them; and it stops before
      the last attempt only when it found pages or gave up. */
  lemma {:induction false} FetchShape(net: nat -> Fetched<StatusData>, maxRetries: int, attempt: nat, slept: nat)
    requires 1 <= attempt
    ensures var r := FetchFrom(net, maxRetries, attempt, slept);
      (attempt <= maxRetries ==> attempt <= r.requests <= maxRetries)
        && (attempt > maxRetries ==> r.requests == attempt - 1 && r.pages.None?)
    ensures var r := FetchFrom(net, maxRetries, attempt, slept);
      forall j :: attempt <= j < r.requests ==> AttemptStep(net(j), j, maxRetries).Next?
    ensures var r := FetchFrom(net, maxRetries, attempt, slept);
      attempt <= r.requests ==>
        var last := AttemptStep(net(r.requests), r.requests, maxRetries);
        (r.pages.Some? <==> last.Found?) && (last.Found? ==> r.pages == Some(last.pages))
          && (r.requests < maxRetries ==> !last.Next?)
    decreases if attempt <= maxRetries then maxRetries - attempt + 1 else 0
  {
    if attempt <= maxRetries {
      match AttemptStep(net(attempt), attempt, maxRetries)
      case Found(_) =>
      case GiveUp =>
      case Next(s) => FetchShape(net, maxRetries, attempt + 1, slept + s);
    }
  }

  /** `retry_fetch_data` makes at most `max_retries` status requests; it succeeds exactly when
      one of them delivered pages, and those are then the pages of the last request. */
  lemma RetryFetchBounded(net: nat -> Fetched<StatusData>, maxRetries: int)
    ensures var r := FetchFrom(net, maxRetries, 1, 0);
      r.requests <= (if maxRetries < 0 then 0 else maxRetries)
        && (r.pages.Some? <==> 1 <= r.requests && net(r.requests).Got? && net(r.requests).value.data != [])
        && (r.pages.Some? ==> r.pages.value == net(r.requests).value.data)
  {
    FetchShape(net, maxRetries, 1, 0);
  }

  /** The pauses after attempts `a` to `m - 1` when each waits 10 seconds per attempt made. */
  function GrowingPauses(m: int, a: nat): nat
    decreases m - a
  {
    if a >= m then 0 else 10 * a + GrowingPauses(m, a + 1)
  }

  /** Those pauses add up to 5·(m·(m-1) - a·(a-1)) seconds. */
  lemma {:induction false} GrowingPausesTotal(m: int, a: nat)
    requires a <= m
    ensures GrowingPauses(m, a) == 5 * (m * (m - 1) - a * (a - 1))
    decreases m - a
  {
    if a < m {
      GrowingPausesTotal(m, a + 1);
      assert (a + 1) * a == a * a + a && a * (a - 1) == a * a - a;
    }
  }

  /** A job that keeps reporting completion with pages it never delivers is asked
      `maxRetries` times, pausing 10, 20, ... seconds between the attempts, and the search
      then gives up (here from attempt `a`). */
  lemma {:induction false} PatientBackoff(net: nat -> Fetched<StatusData>, maxRetries: int, a: nat, slept: nat)
    requires 1 <= a <= maxRetries
    requires forall k :: a <= k <= maxRetries ==>
      net(k).Got? && net(k).value.data == [] && net(k).value.status == Some("completed") && net(k).value.total.GetOr(0) > 0
    ensures FetchFrom(net, maxRetries, a, slept) == Fetch(None, maxRetries, slept + GrowingPauses(maxRetries, a))
    decreases maxRetries - a
  {
    if a < maxRetries {
      assert AttemptStep(net(a), a, maxRetries) == Next(10 * a);
      PatientBackoff(net, maxRetries, a + 1, slept + 10 * a);
    } else {
      assert AttemptStep(net(a), a, maxRetries) == GiveUp;
    }
  }

  /** So `retry_fetch_data` on such a job gives up after `m` requests and 5·m·(m-1) seconds
      of sleep. */
  lemma PatientBackoffTotal(net: nat -> Fetched<StatusData>, maxRetries: int)
    requires 1 <= maxRetries
    requires forall k :: 1 <= k <= maxRetries ==>
      net(k).Got? && net(k).value.data == [] && net(k).value.status == Some("completed") && net(k).value.total.GetOr(0) > 0
    ensures FetchFrom(net, maxRetries, 1, 0) == Fetch(None, maxRetries, 5 * maxRetries * (maxRetries - 1))
  {
    PatientBackoff(net, maxRetries, 1, 0);
    GrowingPausesTotal(maxRetries, 1);
  }

  /** A job reported as scraping at every attempt is asked `maxRetries` times, with a
      10-second pause after each, the last included; then the search gives up. */
  lemma {:induction false} ScrapingUntilTheEnd(net: nat -> Fetched<StatusData>, maxRetries: int, a: nat, slept: nat)
    requires 1 <= a <= maxRetries + 1
    requires forall k :: a <= k <= maxRetries ==>
      net(k).Got? && net(k).value.data == [] && net(k).value.status == Some("scraping")
    ensures FetchFrom(net, maxRetries, a, slept) == Fetch(None, if a <= maxRetries then maxRetries else a - 1, slept + 10 * (maxRetries + 1 - a))
    decreases maxRetries + 1 - a
  {
    if a <= maxRetries {
      ScrapingUntilTheEnd(net, maxRetries, a + 1, slept + 10);
    }
  }

  /** `retry_fetch_data(api_url, job_id, output_dir, api_key, max_retries)` over a store opened
      on a directory holding `existing` and, maybe, a metadata file; the batch save fails on
      the pages listed in `failures`. It returns whether pages were found, the requests made,
      the seconds slept and the store's final state: the pages saved with an index when
      found, the store untouched otherwise. */
  method RetryFetchData(dir: string, existing: map<string, string>, metaFile: MetaFile, net: nat -> Fetched<StatusData>,
                        maxRetries: int, now: string, failures: set<nat>)
    returns (success: bool, requests: nat, slept: nat, final: StoreState)
    ensures var r := FetchFrom(net, maxRetries, 1, 0);
      success == r.pages.Some? && requests == r.requests && slept == r.slept
        && final == if r.pages.Some? then SaveManySpec(Opened(existing, metaFile), dir, r.pages.value, Proposals(r.pages.value), true, now, failures).state
                    else Opened(existing, metaFile)
  {
    hide SaveManySpec, Proposals, LoadMetadata;
    var store := new MarkdownStorage(dir, existing, metaFile);
    slept, requests := 0, 0;
    var attempt := 1;
    while attempt <= maxRetries
      invariant 1 <= attempt && requests == attempt - 1
      invariant FetchFrom(net, maxRetries, attempt, slept) == FetchFrom(net, maxRetries, 1, 0)
      invariant store.State() == Opened(existing, metaFile) && store.outputDir == dir
      decreases maxRetries - attempt
    {
      var r := net(attempt);
      requests := attempt;
      if r.Raised? {
        if attempt < maxRetries {
          slept := slept + 10 * attempt;
          attempt := attempt + 1;
          continue;
        }
        return false, requests, slept, store.State();
      }
      var sd := r.value;
      var status := sd.status.GetOr("unknown");
      var total := sd.total.GetOr(0);
      if sd.data != [] {
        var saved := store.SaveMultiplePages(sd.data, true, now, failures);
        return true, requests, slept, store.State();
      } else if status == "completed" && total > 0 {
        if attempt < maxRetries {
          slept := slept + 10 * attempt;
          attempt := attempt + 1;
          continue;
        }
        return false, requests, slept, store.State();
      } else if status == "completed" && total == 0 {
        return false, requests, slept, store.State();
      } else if status == "scraping" {
        slept := slept + 10;
        attempt := attempt + 1;
        continue;
      } else if status == "failed" {
        return false, requests, slept, store.State();
      } else if attempt < maxRetries {
        slept := slept + 10;
      }
      attempt := attempt + 1;
    }
    return false, requests, slept, store.State();
  }

  const LocalApi := "http://localhost:3002"

  /** What `diagnose_section` does: exit because the sections file or the section is
      missing, report that no job is recorded, or check the status of a job at an API
      address. */
  datatype Diagnosis = MissingConfigFile | UnknownSection | NoJobRecorded | CheckJob(apiUrl: string, jobId: string)

  /** `diagnose_section(section_key, api_url, api_key)`: `sections` is the parsed sections
      file, `None` when it does not exist, and `metaFiles` gives the metadata file found in
      each output directory. */
  function DiagnoseSection(sections: Option<Assoc<string, SectionConfig>>, key: string, metaFiles: string -> MetaFile,
                           apiUrl: string): (d: Diagnosis)
    ensures d.CheckJob? ==> d.apiUrl != ""
  {
    if sections.None? then MissingConfigFile
    else match Get(sections.value, key)
      case None => UnknownSection
      case Some(section) =>
        var metadata := LoadMetadata(metaFiles(section.outputDir));
        if Truthy(metadata.lastJobId) then CheckJob(if apiUrl != "" then apiUrl else LocalApi, metadata.lastJobId.value)
        else NoJobRecorded
  }

  /** A section's job is checked exactly when the sections file lists it and its output
      directory holds readable metadata naming a last job; the job checked is that one, at
      the given API address or, when none is given, at the local default. */
  lemma DiagnoseSectionChecksRecordedJob(sections: Option<Assoc<string, SectionConfig>>, key: string,
                                         metaFiles: string -> MetaFile, apiUrl: string)
    ensures var d := DiagnoseSection(sections, key, metaFiles, apiUrl);
      d.CheckJob? <==>
        (sections.Some? && Get(sections.value, key).Some?
         && var f := metaFiles(Get(sections.value, key).value.outputDir);
         f.Stored? && Truthy(f.document.lastJobId))
    ensures var d := DiagnoseSection(sections, key, metaFiles, apiUrl);
      d.CheckJob? ==>
        d.jobId == metaFiles(Get(sections.value, key).value.outputDir).document.lastJobId.value
          && d.apiUrl == (if apiUrl != "" then apiUrl else LocalApi)
    ensures DiagnoseSection(sections, key, metaFiles, apiUrl).MissingConfigFile? <==> sections.None?
    ensures DiagnoseSection(sections, key, metaFiles, apiUrl).UnknownSection? <==>
      sections.Some? && Get(sections.value, key).None?
  {
  }
}
