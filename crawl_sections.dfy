/** Crawling the sections of a site one by one (crawl_sections.py): resolving a section's
    crawl limits, starting the crawl, waiting for it, and storing what came back, with one
    more status request when the crawl came back empty; and crawling every section in
    order. */
module CrawlSections {
  import opened Wrappers
  import opened Seqs
  import opened Errors
  import opened Records
  import opened Api
  import opened Storage
  import opened CrawlWait
  import Config

  /** The crawl limits a section is crawled with. */
  datatype Params = Params(maxDepth: int, limit: int, timeout: int)

  /** What the sitemap analysis of a section reports: its page count and its depth. */
  datatype Analysis = Analysis(pageCount: int, maxDepth: int)

  const BaseTime: int := 30
  const TimePerPage: int := 3
  const DepthFactor: int := 10
  const MinTimeout: int := 60
  const MaxTimeout: int := 3600
  const DefaultDepth: int := 2
  const DefaultLimit: int := 50
  const DefaultTimeout: int := 600
  const PollInterval: nat := 5

  /** `int(x * 1.5)`: one and a half times `x`, truncated toward zero. */
  function TimesOneAndAHalf(x: int): (r: int)
    ensures x >= 0 ==> 0 <= 2 * r <= 3 * x < 2 * r + 2
    ensures x < 0 ==> 2 * r - 2 < 3 * x <= 2 * r <= 0
  {
    if x >= 0 then (3 * x) / 2 else -((-3 * x) / 2)
  }

  /** The estimate of how long a crawl of `limit` pages to depth `depth` takes: 30 seconds,
      3 per page and 10 per level, with half again as margin, kept between a minute and an
      hour. */
  function ComputedTimeout(limit: int, depth: int): (t: int)
    ensures MinTimeout <= t <= MaxTimeout
  {
    var estimate := TimesOneAndAHalf(BaseTime + limit * TimePerPage + depth * DepthFactor);
    if estimate > MaxTimeout then MaxTimeout
    else if estimate < MinTimeout then MinTimeout
    else estimate
  }

  lemma TimesOneAndAHalfMonotone(x: int, y: int)
    requires x <= y
    ensures TimesOneAndAHalf(x) <= TimesOneAndAHalf(y)
  {
  }

  /** A larger crawl never gets a shorter computed timeout. */
  lemma ComputedTimeoutMonotone(limit1: int, depth1: int, limit2: int, depth2: int)
    requires limit1 <= limit2 && depth1 <= depth2
    ensures ComputedTimeout(limit1, depth1) <= ComputedTimeout(limit2, depth2)
  {
    TimesOneAndAHalfMonotone(BaseTime + limit1 * TimePerPage + depth1 * DepthFactor,
                             BaseTime + limit2 * TimePerPage + depth2 * DepthFactor);
  }

  /** Whether the sitemap is analysed at all: some limit is left open. */
  predicate NeedsAnalysis(s: SectionConfig) {
    s.maxDepth.None? || s.limit.None? || s.timeout.None?
  }

  /** The limits of lines 53-96. A value the section fixes is kept. When the analysis found
      pages, an open depth or limit takes the detected one and an open timeout is computed
      from the resolved limit and depth; when it found none, an open value takes its
      default. */
  function Resolve(s: SectionConfig, a: Analysis): (p: Params)
    ensures s.maxDepth.Some? ==> p.maxDepth == s.maxDepth.value
    ensures s.limit.Some? ==> p.limit == s.limit.value
    ensures s.timeout.Some? ==> p.timeout == s.timeout.value
    ensures s.maxDepth.None? && a.pageCount > 0 ==> p.maxDepth == a.maxDepth
    ensures s.limit.None? && a.pageCount > 0 ==> p.limit == a.pageCount
    ensures s.timeout.None? && a.pageCount > 0 ==> p.timeout == ComputedTimeout(p.limit, p.maxDepth) && MinTimeout <= p.timeout <= MaxTimeout
    ensures s.maxDepth.None? && a.pageCount <= 0 ==> p.maxDepth == DefaultDepth
    ensures s.limit.None? && a.pageCount <= 0 ==> p.limit == DefaultLimit
    ensures s.timeout.None? && a.pageCount <= 0 ==> p.timeout == DefaultTimeout
  {
    if !NeedsAnalysis(s) then Params(s.maxDepth.value, s.limit.value, s.timeout.value)
    else if a.pageCount > 0 then
      var depth := s.maxDepth.GetOr(a.maxDepth);
      var limit := s.limit.GetOr(a.pageCount);
      Params(depth, limit, if s.timeout.Some? then s.timeout.value else ComputedTimeout(limit, depth))
    else Params(s.maxDepth.GetOr(DefaultDepth), s.limit.GetOr(DefaultLimit), s.timeout.GetOr(DefaultTimeout))
  }

  /** A section whose limits are all fixed is crawled with exactly those, whatever the
      sitemap says. */
  lemma FixedSectionIgnoresSitemap(s: SectionConfig, a1: Analysis, a2: Analysis)
    requires !NeedsAnalysis(s)
    ensures Resolve(s, a1) == Resolve(s, a2) == Params(s.maxDepth.value, s.limit.value, s.timeout.value)
  {
  }

  /** The contents of one directory: its files and, maybe, its metadata file. */
  datatype Directory = Directory(files: map<string, string>, metaFile: MetaFile)

  /** The file system: the directories by path; one not listed is empty. */
  type Disk = map<string, Directory>

  function DirAt(disk: Disk, dir: string): Directory {
    if dir in disk then disk[dir] else Directory(map[], Absent)
  }

  /** The disk after a store over `dir` reached state `st`. */
  function Written(disk: Disk, dir: string, st: StoreState): Disk {
    disk[dir := Directory(st.files, st.metaFile)]
  }

  /** Everything a section's crawl meets besides the disk: the sitemap analysis, the answer to
      the crawl request (the job id or the error `crawl_website` raises), the status calls of
      the wait, the status request made after an empty result (by the job id it is made
      for), and which pages fail to save. */
  datatype SectionWorld = SectionWorld(analysis: Analysis, start: Fetched<string>, wait: WaitConfig,
                                       retry: string -> Fetched<StatusData>, failures: set<nat>)

  /** The wait as `crawl_section` calls it: limited to the resolved timeout, polling every 5
      seconds, without incremental saving. */
  function WaitSetup(w: WaitConfig, p: Params): WaitConfig {
    w.(maxWait := Some(p.timeout), pollInterval := PollInterval, saving := false)
  }

  /** The job the extra status request asks about: the result's `id` when truthy, else its
      `jobId`, else "unknown". */
  function RetryJob(result: StatusData): (j: string)
    ensures Truthy(result.id) ==> j == result.id.value
    ensures !Truthy(result.id) ==> j == result.jobId.GetOr("unknown")
  {
    if Truthy(result.id) then result.id.value else result.jobId.GetOr("unknown")
  }

  /** How crawling a section ends: an unknown key or an error of the crawl or the wait
      (both exit with status 1), the end of the wait's script, the pages saved from the
      result, the pages saved after the extra request, or an error of the extra request's
      branch, which the inner handler reports without exiting. */
  datatype SectionOutcome =
    | UnknownSection
    | CrawlFailed(error: CrawlerError)
    | WaitScriptEnded
    | SavedPages(saved: seq<string>)
    | SavedOnRetry(jobId: string, saved: seq<string>)
    | RetryHandled(jobId: string, error: CrawlerError)

  /** Whether the outcome ends the process with exit status 1. */
  predicate Exits(o: SectionOutcome) {
    o.UnknownSection? || o.CrawlFailed?
  }

  /** The output directory of a section: the configured one when not empty, otherwise what
      the configuration falls back to. */
  function SectionDir(s: SectionConfig, env: Config.Env): string {
    Config.NewConfig(None, None, Some(s.outputDir), env).outputDir
  }

  /** `crawl_section(section_key, sections_config, ...)`: the outcome, the limits used (none
      for an unknown key) and the disk afterwards. */
  function CrawlSectionSpec(sections: Assoc<string, SectionConfig>, key: string, env: Config.Env, w: SectionWorld,
                            disk: Disk, now: string): (SectionOutcome, Option<Params>, Disk)
  {
    match Get(sections, key)
    case None => (UnknownSection, None, disk)
    case Some(section) =>
      var p := Resolve(section, w.analysis);
      var dir := SectionDir(section, env);
      var st := Opened(DirAt(disk, dir).files, DirAt(disk, dir).metaFile);
      if w.start.Raised? then (CrawlFailed(w.start.error), Some(p), disk)
      else match Run(WaitSetup(w.wait, p), Start).0
        case OutOfScript => (WaitScriptEnded, Some(p), disk)
        case Threw(e) => (CrawlFailed(e), Some(p), disk)
        case Returned(result) =>
          if result.data != [] then
            var b := SaveManySpec(st, dir, result.data, Proposals(result.data), true, now, w.failures);
            (SavedPages(b.saved), Some(p), Written(disk, dir, b.state))
          else
            var job := RetryJob(result);
            match w.retry(job)
            case Raised(e) => (RetryHandled(job, e), Some(p), disk)
            case Got(again) =>
              if again.data != [] then
                var b := SaveManySpec(st, dir, again.data, Proposals(again.data), true, now, w.failures);
                (SavedOnRetry(job, b.saved), Some(p), Written(disk, dir, b.state))
              else (RetryHandled(job, BuiltinError("NameError")), Some(p), disk)
  }

  /** Lines 53-96: the limits left open are filled in one by one. */
  method ResolveLimits(section: SectionConfig, analysis: Analysis) returns (p: Params)
    ensures p == Resolve(section, analysis)
  {
    var maxDepth, limit, timeout := section.maxDepth, section.limit, section.timeout;
    if maxDepth.None? || limit.None? || timeout.None? {
      if analysis.pageCount > 0 {
        if maxDepth.None? {
          maxDepth := Some(analysis.maxDepth);
        }
        if limit.None? {
          limit := Some(analysis.pageCount);
        }
        if timeout.None? {
          timeout := Some(ComputedTimeout(limit.value, maxDepth.value));
        }
      } else {
        if maxDepth.None? {
          maxDepth := Some(DefaultDepth);
        }
        if limit.None? {
          limit := Some(DefaultLimit);
        }
        if timeout.None? {
          timeout := Some(DefaultTimeout);
        }
      }
    }
    p := Params(maxDepth.value, limit.value, timeout.value);
  }

  /** `crawl_section`. */
  method CrawlSection(sections: Assoc<string, SectionConfig>, key: string, env: Config.Env, w: SectionWorld,
                      disk: Disk, now: string)
    returns (outcome: SectionOutcome, params: Option<Params>, after: Disk)
    ensures (outcome, params, after) == CrawlSectionSpec(sections, key, env, w, disk, now)
  {
    hide SaveManySpec, Proposals, Run, LoadMetadata, Config.NewConfig, Resolve;
    var found := Get(sections, key);
    if found.None? {
      return UnknownSection, None, disk;
    }
    var section := found.value;
    var p := ResolveLimits(section, w.analysis);
    params := Some(p);
    var dir := SectionDir(section, env);
    var store := new MarkdownStorage(dir, DirAt(disk, dir).files, DirAt(disk, dir).metaFile);
    after := disk;
    if w.start.Raised? {
      return CrawlFailed(w.start.error), params, after;
    }
    var o, _ := WaitForCrawl(WaitSetup(w.wait, p));
    match o {
      case OutOfScript =>
        return WaitScriptEnded, params, after;
      case Threw(e) =>
        return CrawlFailed(e), params, after;
      case Returned(result) =>
        if result.data != [] {
          var saved := store.SaveMultiplePages(result.data, true, now, w.failures);
          return SavedPages(saved), params, Written(disk, dir, store.State());
        }
        var job := RetryJob(result);
        var again := w.retry(job);
        if again.Raised? {
          return RetryHandled(job, again.error), params, after;
        }
        if again.value.data != [] {
          var saved := store.SaveMultiplePages(again.value.data, true, now, w.failures);
          return SavedOnRetry(job, saved), params, Written(disk, dir, store.State());
        }
        // the warning at line 183 names `logger`, which this file never defines
        return RetryHandled(job, BuiltinError("NameError")), params, after;
    }
  }

  /** A section's crawl exits with status 1 exactly when its key is unknown, or the crawl
      request or the wait raised; an unknown key is reported before anything is resolved,
      requested or written. */
  lemma SectionExitRule(sections: Assoc<string, SectionConfig>, key: string, env: Config.Env, w: SectionWorld,
                        disk: Disk, now: string)
    ensures var (o, p, d) := CrawlSectionSpec(sections, key, env, w, disk, now);
      Exits(o) <==>
        Get(sections, key).None? || w.start.Raised?
        || Run(WaitSetup(w.wait, Resolve(Get(sections, key).value, w.analysis)), Start).0.Threw?
    ensures var (o, p, d) := CrawlSectionSpec(sections, key, env, w, disk, now);
      o.UnknownSection? <==> Get(sections, key).None?
    ensures var (o, p, d) := CrawlSectionSpec(sections, key, env, w, disk, now);
      o.UnknownSection? ==> p.None? && d == disk
    ensures var (o, p, d) := CrawlSectionSpec(sections, key, env, w, disk, now);
      Exits(o) ==> d == disk
  {
  }

  /** When the wait returns a document without pages, exactly one more status request is
      made, for the job the document names; pages it brings are saved with an index, and
      when it brings none the branch fails on the undefined `logger` and is reported
      without exiting. As written, a document naming no job makes that request for
      "unknown", whichever job was started. */
  lemma EmptyResultRetriedOnce(sections: Assoc<string, SectionConfig>, key: string, env: Config.Env, w: SectionWorld,
                               disk: Disk, now: string)
    requires Get(sections, key).Some? && w.start.Got?
    requires var p := Resolve(Get(sections, key).value, w.analysis);
      Run(WaitSetup(w.wait, p), Start).0.Returned? && Run(WaitSetup(w.wait, p), Start).0.data.data == []
    ensures var (o, p, d) := CrawlSectionSpec(sections, key, env, w, disk, now);
      var result := Run(WaitSetup(w.wait, p.value), Start).0.data;
      var job := RetryJob(result);
      !Exits(o) && p.Some?
        && (o.SavedOnRetry? || o.RetryHandled?) && o.jobId == job
        && (o.SavedOnRetry? <==> w.retry(job).Got? && w.retry(job).value.data != [])
        && (w.retry(job).Got? && w.retry(job).value.data == [] ==> o == RetryHandled(job, BuiltinError("NameError")) && d == disk)
        && (!Truthy(result.id) && result.jobId.None? ==> job == "unknown")
  {
    hide Run, Resolve, SaveManySpec, Proposals, LoadMetadata, Config.NewConfig, Written;
  }

  /** `crawl_all_sections` from the section keys `keys` on: each section in turn, over the
      disk the previous ones left, until one exits. */
  function CrawlAllFrom(sections: Assoc<string, SectionConfig>, keys: seq<string>, env: Config.Env,
                        worlds: string -> SectionWorld, disk: Disk, now: string): (r: (seq<SectionOutcome>, Disk))
    decreases |keys|
  {
    if keys == [] then ([], disk)
    else
      var (o, _, d1) := CrawlSectionSpec(sections, keys[0], env, worlds(keys[0]), disk, now);
      if Exits(o) then ([o], d1)
      else
        var (rest, d2) := CrawlAllFrom(sections, keys[1..], env, worlds, d1, now);
        ([o] + rest, d2)
  }

  /** The first section of a run: its outcome, and the rest of the run over the disk it
      left unless it exits. */
  lemma CrawlAllFromFirst(sections: Assoc<string, SectionConfig>, keys: seq<string>, env: Config.Env,
                          worlds: string -> SectionWorld, disk: Disk, now: string)
    requires keys != []
    ensures var (o, _, d1) := CrawlSectionSpec(sections, keys[0], env, worlds(keys[0]), disk, now);
      CrawlAllFrom(sections, keys, env, worlds, disk, now)
        == if Exits(o) then ([o], d1)
           else var (rest, d2) := CrawlAllFrom(sections, keys[1..], env, worlds, d1, now); ([o] + rest, d2)
  {
  }

  /** When the first section does not exit, the disk after the first `i` sections is the
      disk after the `i - 1` that follow it, started from the disk it left. */
  lemma PrefixDisk(sections: Assoc<string, SectionConfig>, keys: seq<string>, env: Config.Env,
                   worlds: string -> SectionWorld, disk: Disk, now: string, i: nat)
    requires 1 <= i <= |keys|
    requires !Exits(CrawlSectionSpec(sections, keys[0], env, worlds(keys[0]), disk, now).0)
    ensures CrawlAllFrom(sections, keys[..i], env, worlds, disk, now).1
         == CrawlAllFrom(sections, keys[1..][..i - 1], env, worlds, CrawlSectionSpec(sections, keys[0], env, worlds(keys[0]), disk, now).2, now).1
  {
    hide CrawlSectionSpec, CrawlAllFrom;
    CrawlAllFromFirst(sections, keys[..i], env, worlds, disk, now);
    assert keys[..i][0] == keys[0] && keys[..i][1..] == keys[1..][..i - 1];
  }

  /** The run stops only at a section that exits, and then at the first one that does,
      leaving the disk the crawled sections left. */
  lemma {:induction false} CrawlAllStops(sections: Assoc<string, SectionConfig>, keys: seq<string>, env: Config.Env,
                                         worlds: string -> SectionWorld, disk: Disk, now: string)
    ensures var (os, d) := CrawlAllFrom(sections, keys, env, worlds, disk, now);
      |os| <= |keys| && (keys != [] ==> |os| >= 1)
        && (forall i :: 0 <= i < |os| - 1 ==> !Exits(os[i]))
        && (|os| < |keys| ==> Exits(os[|os| - 1]))
        && d == CrawlAllFrom(sections, keys[..|os|], env, worlds, disk, now).1
    decreases |keys|, 1
  {
    if keys == [] {
      assert keys[..0] == [];
    } else if Exits(CrawlSectionSpec(sections, keys[0], env, worlds(keys[0]), disk, now).0) {
      hide CrawlSectionSpec, CrawlAllFrom;
      CrawlAllFromFirst(sections, keys, env, worlds, disk, now);
      CrawlAllFromFirst(sections, keys[..1], env, worlds, disk, now);
      assert keys[..1][0] == keys[0];
    } else {
      StopsAfterFirst(sections, keys, env, worlds, disk, now);
    }
  }

  /** The step of `CrawlAllStops` past a first section that does not exit. */
  lemma {:induction false} StopsAfterFirst(sections: Assoc<string, SectionConfig>, keys: seq<string>, env: Config.Env,
                                           worlds: string -> SectionWorld, disk: Disk, now: string)
    requires keys != [] && !Exits(CrawlSectionSpec(sections, keys[0], env, worlds(keys[0]), disk, now).0)
    ensures var (os, d) := CrawlAllFrom(sections, keys, env, worlds, disk, now);
      |os| <= |keys| && |os| >= 1
        && (forall i :: 0 <= i < |os| - 1 ==> !Exits(os[i]))
        && (|os| < |keys| ==> Exits(os[|os| - 1]))
        && d == CrawlAllFrom(sections, keys[..|os|], env, worlds, disk, now).1
    decreases |keys|, 0
  {
    hide CrawlSectionSpec, CrawlAllFrom;
    var d1 := CrawlSectionSpec(sections, keys[0], env, worlds(keys[0]), disk, now).2;
    CrawlAllFromFirst(sections, keys, env, worlds, disk, now);
    var tail := keys[1..];
    CrawlAllStops(sections, tail, env, worlds, d1, now);
    var rest := CrawlAllFrom(sections, tail, env, worlds, d1, now).0;
    PrefixDisk(sections, keys, env, worlds, disk, now, |rest| + 1);
  }

  /** The sections are crawled in the order of the configuration, each over the disk the
      sections before it left. */
  lemma {:induction false} CrawlAllInOrder(sections: Assoc<string, SectionConfig>, keys: seq<string>, env: Config.Env,
                                           worlds: string -> SectionWorld, disk: Disk, now: string)
    ensures var os := CrawlAllFrom(sections, keys, env, worlds, disk, now).0;
      |os| <= |keys| && forall i :: 0 <= i < |os| ==>
        os[i] == CrawlSectionSpec(sections, keys[i], env, worlds(keys[i]),
                                  CrawlAllFrom(sections, keys[..i], env, worlds, disk, now).1, now).0
    decreases |keys|, 2
  {
    if keys != [] {
      if Exits(CrawlSectionSpec(sections, keys[0], env, worlds(keys[0]), disk, now).0) {
        assert keys[..0] == [] && CrawlAllFrom(sections, [], env, worlds, disk, now) == ([], disk);
        hide CrawlSectionSpec, CrawlAllFrom;
        CrawlAllFromFirst(sections, keys, env, worlds, disk, now);
      } else {
        InOrderAfterFirst(sections, keys, env, worlds, disk, now);
      }
    }
  }

  /** The step of `CrawlAllInOrder` past a first section that does not exit. */
  lemma {:induction false} InOrderAfterFirst(sections: Assoc<string, SectionConfig>, keys: seq<string>, env: Config.Env,
                                             worlds: string -> SectionWorld, disk: Disk, now: string)
    requires keys != [] && !Exits(CrawlSectionSpec(sections, keys[0], env, worlds(keys[0]), disk, now).0)
    ensures var os := CrawlAllFrom(sections, keys, env, worlds, disk, now).0;
      |os| <= |keys| && forall i :: 0 <= i < |os| ==>
        os[i] == CrawlSectionSpec(sections, keys[i], env, worlds(keys[i]),
                                  CrawlAllFrom(sections, keys[..i], env, worlds, disk, now).1, now).0
    decreases |keys|, 1
  {
    assert keys[..0] == [] && CrawlAllFrom(sections, [], env, worlds, disk, now) == ([], disk);
    hide CrawlSectionSpec, CrawlAllFrom;
    var d1 := CrawlSectionSpec(sections, keys[0], env, worlds(keys[0]), disk, now).2;
    CrawlAllFromFirst(sections, keys, env, worlds, disk, now);
    var os := CrawlAllFrom(sections, keys, env, worlds, disk, now).0;
    CrawlAllInOrder(sections, keys[1..], env, worlds, d1, now);
    forall i | 0 < i < |os|
      ensures os[i] == CrawlSectionSpec(sections, keys[i], env, worlds(keys[i]),
                                        CrawlAllFrom(sections, keys[..i], env, worlds, disk, now).1, now).0
    {
      InOrderAt(sections, keys, env, worlds, disk, now, i);
    }
  }

  /** One later outcome of a run whose first section does not exit: it is the outcome the
      rest of the run gives at that place, over the disk the sections before it left. */
  lemma {:induction false} InOrderAt(sections: Assoc<string, SectionConfig>, keys: seq<string>, env: Config.Env,
                                     worlds: string -> SectionWorld, disk: Disk, now: string, i: nat)
    requires keys != [] && !Exits(CrawlSectionSpec(sections, keys[0], env, worlds(keys[0]), disk, now).0)
    requires 0 < i < |keys| && i < |CrawlAllFrom(sections, keys, env, worlds, disk, now).0|
    ensures CrawlAllFrom(sections, keys, env, worlds, disk, now).0[i]
         == CrawlSectionSpec(sections, keys[i], env, worlds(keys[i]),
                             CrawlAllFrom(sections, keys[..i], env, worlds, disk, now).1, now).0
    decreases |keys|, 0
  {
    hide CrawlSectionSpec, CrawlAllFrom;
    var first := CrawlSectionSpec(sections, keys[0], env, worlds(keys[0]), disk, now);
    var o, d1 := first.0, first.2;
    CrawlAllFromFirst(sections, keys, env, worlds, disk, now);
    var os := CrawlAllFrom(sections, keys, env, worlds, disk, now).0;
    var tail := keys[1..];
    CrawlAllInOrder(sections, tail, env, worlds, d1, now);
    var rest := CrawlAllFrom(sections, tail, env, worlds, d1, now).0;
    assert os == [o] + rest;
    PrefixDisk(sections, keys, env, worlds, disk, now, i);
    assert os[i] == rest[i - 1] && keys[i] == tail[i - 1];
  }

  /** `crawl_all_sections(sections_config, ...)`: the outcomes of the sections crawled and the
      disk afterwards. */
  method CrawlAllSections(sections: Assoc<string, SectionConfig>, env: Config.Env, worlds: string -> SectionWorld,
                          disk: Disk, now: string)
    returns (outcomes: seq<SectionOutcome>, after: Disk)
    ensures (outcomes, after) == CrawlAllFrom(sections, Keys(sections), env, worlds, disk, now)
  {
    hide CrawlSectionSpec;
    var keys := Keys(sections);
    outcomes, after := [], disk;
    var i := 0;
    assert keys[0..] == keys;
    assert [] + CrawlAllFrom(sections, keys, env, worlds, disk, now).0 == CrawlAllFrom(sections, keys, env, worlds, disk, now).0;
    while i < |keys|
      invariant 0 <= i <= |keys|
      invariant var (rest, d) := CrawlAllFrom(sections, keys[i..], env, worlds, after, now);
        (outcomes + rest, d) == CrawlAllFrom(sections, keys, env, worlds, disk, now)
    {
      assert keys[i..][1..] == keys[i + 1..];
      var o, _, d := CrawlSection(sections, keys[i], env, worlds(keys[i]), after, now);
      if Exits(o) {
        return outcomes + [o], d;
      }
      ghost var rest := CrawlAllFrom(sections, keys[i + 1..], env, worlds, d, now);
      assert [o] + rest.0 == [o] + rest.0;
      assert outcomes + ([o] + rest.0) == (outcomes + [o]) + rest.0;
      outcomes, after := outcomes + [o], d;
      i := i + 1;
    }
    assert outcomes + [] == outcomes;
  }
}
