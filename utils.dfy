/** The statistics helpers of firecrawl_crawler/utils.py. They read an output directory's
    metadata file themselves, without the store: a missing file gives empty statistics
    without a "pages" key, and a file that does not parse raises. */
module Utils {
  import opened Wrappers
  import opened Seqs
  import opened Strings
  import opened Errors
  import opened Records
  import opened Api
  import opened Storage
  import opened Filenames

  /** The result of `get_scrape_stats(dir)`: the page count, `last_crawl`, the byte total of
      the recorded file sizes, and the "pages" dictionary, `None` when the key is left out. */
  datatype Stats = Stats(totalPages: nat, lastCrawl: Option<string>, totalSize: int,
                         pages: Option<Assoc<string, PageEntry>>)

  /** The size counted for an entry: its `file_size`, 0 when it has none. */
  function EntrySize(e: PageEntry): int {
    e.fileSize.GetOr(0)
  }

  /** The total of the sizes counted for `pages`. */
  function SizeSum(pages: Assoc<string, PageEntry>): int {
    if pages == [] then 0 else EntrySize(pages[0].1) + SizeSum(pages[1..])
  }

  /** The statistics of a stored metadata document; a document without "pages" counts as
      having none. */
  function StatsOf(m: Metadata): Stats {
    var pages := m.pages.GetOr([]);
    Stats(|pages|, m.lastCrawl, SizeSum(pages), Some(pages))
  }

  /** What `get_scrape_stats` gives for a directory whose metadata file is `f`. */
  function ScrapeStats(f: MetaFile): Fetched<Stats> {
    match f
    case Absent => Got(Stats(0, None, 0, None))
    case Unparseable => Raised(BuiltinError("JSONDecodeError"))
    case Stored(m) => Got(StatsOf(m))
  }

  /** `get_scrape_stats(output_dir)`, its size total added up entry by entry. */
  method GetScrapeStats(f: MetaFile) returns (r: Fetched<Stats>)
    ensures r == ScrapeStats(f)
  {
    match f {
      case Absent =>
        return Got(Stats(0, None, 0, None));
      case Unparseable =>
        return Raised(BuiltinError("JSONDecodeError"));
      case Stored(m) =>
        var pages := m.pages.GetOr([]);
        var total := 0;
        var i := 0;
        while i < |pages|
          invariant 0 <= i <= |pages|
          invariant total + SizeSum(pages[i..]) == SizeSum(pages)
        {
          assert pages[i..][1..] == pages[i + 1..];
          total := total + EntrySize(pages[i].1);
          i := i + 1;
        }
        r := Got(Stats(|pages|, m.lastCrawl, total, Some(pages)));
    }
  }

  /** Replacing or adding one entry changes the size total by the difference between the
      new entry's size and the replaced one's. */
  lemma {:induction false} SizeSumPut(a: Assoc<string, PageEntry>, k: string, v: PageEntry)
    ensures SizeSum(Put(a, k, v))
      == SizeSum(a) - (if Get(a, k).Some? then EntrySize(Get(a, k).value) else 0) + EntrySize(v)
    decreases |a|
  {
    if a != [] && a[0].0 != k {
      SizeSumPut(a[1..], k, v);
      assert Put(a, k, v)[1..] == Put(a[1..], k, v);
    } else if a != [] {
      assert Put(a, k, v)[1..] == a[1..];
    }
  }

  /** After a successful save the statistics of the directory count the page once more when
      its URL is new, take the size of the file written in place of the size recorded before,
      and report the save's time as the last crawl. */
  lemma StatsAfterSave(st: StoreState, dir: string, p: Page, proposed: string, now: string, writeOk: bool)
    requires SaveSpec(st, dir, p, proposed, now, writeOk).0.Saved?
    ensures var st' := SaveSpec(st, dir, p, proposed, now, writeOk).1;
      var prior := st.metadata.pages.value;
      var before := Get(prior, PageKey(p));
      st.metadata.pages.Some? && ScrapeStats(st'.metaFile).Got?
        && ScrapeStats(st'.metaFile).value.totalPages == |prior| + (if before.None? then 1 else 0)
        && ScrapeStats(st'.metaFile).value.totalSize
           == SizeSum(prior) - (if before.Some? then EntrySize(before.value) else 0) + Utf8Length(PageContent(p))
        && ScrapeStats(st'.metaFile).value.lastCrawl == Some(now)
  {
    hide PageName, PageContent, UniqueName, PathIn, Put, Get;
    SaveUpdatesOneEntry(st, dir, p, proposed, now, writeOk);
    var name := UniqueName(st.files.Keys, proposed);
    var entry := PageEntry(Some(PathIn(dir, name)), Some(now), Some(Utf8Length(PageContent(p))));
    SizeSumPut(st.metadata.pages.value, PageKey(p), entry);
  }

  // ---------------------------------------------------------------- list_scraped_pages

  /** At most this many pages are listed. */
  const MaxListed: nat := 20

  /** One listed page: its URL, `file` and `scraped_at`. */
  datatype Listed = Listed(url: string, file: string, scrapedAt: string)

  /** What `list_scraped_pages` shows: the statistics, the pages it lists and how many more
      it counts. */
  datatype Listing = Listing(stats: Stats, shown: seq<Listed>, more: nat)

  /** An entry can be listed: it has both keys the listing reads with `info[...]`. */
  predicate Listable(e: PageEntry) {
    e.file.Some? && e.scrapedAt.Some?
  }

  /** The listing of `pages` in order: the first entry without `file` or `scraped_at` raises
      KeyError. */
  function ListEntries(pages: Assoc<string, PageEntry>): (r: Fetched<seq<Listed>>)
    ensures r.Got? <==> forall k :: 0 <= k < |pages| ==> Listable(pages[k].1)
    ensures r.Raised? ==> r.error == BuiltinError("KeyError")
    ensures r.Got? ==> |r.value| == |pages|
    ensures r.Got? ==> forall k :: 0 <= k < |pages| ==>
      r.value[k] == Listed(pages[k].0, pages[k].1.file.value, pages[k].1.scrapedAt.value)
  {
    if pages == [] then Got([])
    else
      var (url, info) := pages[0];
      if !Listable(info) then Raised(BuiltinError("KeyError"))
      else match ListEntries(pages[1..])
        case Raised(e) => Raised(e)
        case Got(rest) => Got([Listed(url, info.file.value, info.scrapedAt.value)] + rest)
  }

  /** The first `MaxListed` entries, the ones the listing shows. */
  function Head(pages: Assoc<string, PageEntry>): (h: Assoc<string, PageEntry>)
    ensures |h| == if |pages| <= MaxListed then |pages| else MaxListed
    ensures h <= pages
  {
    if |pages| <= MaxListed then pages else pages[..MaxListed]
  }

  /** What `list_scraped_pages(output_dir, show_details)` shows for a directory whose
      metadata file is `f`. Without details only the statistics; with details the statistics
      must have a "pages" key, and a non-empty dictionary has its first 20 entries listed and
      the rest counted. */
  function ListSpec(f: MetaFile, showDetails: bool): Fetched<Listing> {
    match ScrapeStats(f)
    case Raised(e) => Raised(e)
    case Got(s) =>
      if !showDetails then Got(Listing(s, [], 0))
      else if s.pages.None? then Raised(BuiltinError("KeyError"))
      else if s.pages.value == [] then Got(Listing(s, [], 0))
      else
        var pages := s.pages.value;
        match ListEntries(Head(pages))
        case Raised(e) => Raised(e)
        case Got(shown) => Got(Listing(s, shown, if |pages| > MaxListed then |pages| - MaxListed else 0))
  }

  /** `list_scraped_pages(output_dir, show_details)`, its entries listed one by one. */
  method ListScrapedPages(f: MetaFile, showDetails: bool) returns (r: Fetched<Listing>)
    ensures r == ListSpec(f, showDetails)
  {
    var stats := GetScrapeStats(f);
    if stats.Raised? {
      return Raised(stats.error);
    }
    var s := stats.value;
    if !showDetails {
      return Got(Listing(s, [], 0));
    }
    if s.pages.None? {
      return Raised(BuiltinError("KeyError"));
    }
    var pages := s.pages.value;
    if pages == [] {
      return Got(Listing(s, [], 0));
    }
    var head := Head(pages);
    var shown: seq<Listed> := [];
    var i := 0;
    while i < |head|
      invariant 0 <= i <= |head|
      invariant forall k :: 0 <= k < i ==> Listable(head[k].1)
      invariant |shown| == i
      invariant forall k :: 0 <= k < i ==> shown[k] == Listed(head[k].0, head[k].1.file.value, head[k].1.scrapedAt.value)
    {
      var (url, info) := head[i];
      if !Listable(info) {
        return Raised(BuiltinError("KeyError"));
      }
      shown := shown + [Listed(url, info.file.value, info.scrapedAt.value)];
      i := i + 1;
    }
    assert shown == ListEntries(head).value;
    var more := if |pages| > MaxListed then |pages| - MaxListed else 0;
    r := Got(Listing(s, shown, more));
  }

  /** The listing shows at most 20 pages, the first ones of the dictionary in its order, and
      with details counts every page as shown or more. It raises exactly when the metadata
      file does not parse, or when details are asked for and there is no metadata file (as
      written: the statistics then have no "pages" key) or one of the first 20 entries lacks
      its file or its scrape time. */
  lemma ListingShape(f: MetaFile, showDetails: bool)
    ensures var r := ListSpec(f, showDetails);
      r.Got? ==>
        (|r.value.shown| <= MaxListed && r.value.stats == ScrapeStats(f).value
         && (forall k :: 0 <= k < |r.value.shown| ==> r.value.shown[k].url == r.value.stats.pages.value[k].0)
         && (showDetails ==> |r.value.shown| + r.value.more == r.value.stats.totalPages)
         && (!showDetails ==> r.value.shown == [] && r.value.more == 0))
    ensures var r := ListSpec(f, showDetails);
      r.Raised? <==>
        f.Unparseable?
        || (showDetails && f.Absent?)
        || (showDetails && f.Stored? &&
            var pages := f.document.pages.GetOr([]);
            exists k :: 0 <= k < |pages| && k < MaxListed && !Listable(pages[k].1))
  {
    if f.Stored? && showDetails {
      var pages := f.document.pages.GetOr([]);
      var h := Head(pages);
      assert forall k :: 0 <= k < |h| ==> h[k] == pages[k];
    }
  }

  // ---------------------------------------------------------------- compare_scrape_sessions

  /** Python's `<` on strings: code point by code point, a proper prefix first. */
  predicate Below(a: string, b: string) {
    if a == [] then b != []
    else if b == [] then false
    else if a[0] != b[0] then a[0] < b[0]
    else Below(a[1..], b[1..])
  }

  lemma {:induction false} BelowIrreflexive(a: string)
    ensures !Below(a, a)
  {
    if a != [] {
      BelowIrreflexive(a[1..]);
    }
  }

  lemma {:induction false} BelowTransitive(a: string, b: string, c: string)
    requires Below(a, b) && Below(b, c)
    ensures Below(a, c)
  {
    if a != [] && b != [] && c != [] && a[0] == b[0] && b[0] == c[0] {
      BelowTransitive(a[1..], b[1..], c[1..]);
    }
  }

  lemma {:induction false} BelowTotal(a: string, b: string)
    ensures a == b || Below(a, b) || Below(b, a)
  {
    if a != [] && b != [] && a[0] == b[0] {
      BelowTotal(a[1..], b[1..]);
      if a[1..] == b[1..] {
        assert a == [a[0]] + a[1..] && b == [b[0]] + b[1..];
      }
    }
  }

  lemma BelowAsymmetric(a: string, b: string)
    ensures !(Below(a, b) && Below(b, a))
  {
    if Below(a, b) && Below(b, a) {
      BelowTransitive(a, b, a);
      BelowIrreflexive(a);
    }
  }

  predicate StrictlySorted(s: seq<string>) {
    forall i, j :: 0 <= i < j < |s| ==> Below(s[i], s[j])
  }

  /** `x` put into the sorted `s`, unless it is there already. */
  function Insert(x: string, s: seq<string>): seq<string> {
    if s == [] then [x]
    else if x == s[0] then s
    else if Below(x, s[0]) then [x] + s
    else [s[0]] + Insert(x, s[1..])
  }

  lemma {:induction false} InsertSorted(x: string, s: seq<string>)
    requires StrictlySorted(s)
    ensures StrictlySorted(Insert(x, s))
    ensures forall y :: y in Insert(x, s) <==> y == x || y in s
  {
    if s != [] && x != s[0] && !Below(x, s[0]) {
      InsertSorted(x, s[1..]);
      BelowTotal(x, s[0]);
      var r := Insert(x, s[1..]);
      forall y | y in r ensures Below(s[0], y) {
        if y != x {
          var j :| 0 <= j < |s[1..]| && s[1..][j] == y;
          assert s[j + 1] == y;
        }
      }
      forall i, j | 0 <= i < j < |[s[0]] + r| ensures Below(([s[0]] + r)[i], ([s[0]] + r)[j]) {
        if i == 0 {
          assert ([s[0]] + r)[j] == r[j - 1];
          assert r[j - 1] in r;
        } else {
          assert ([s[0]] + r)[i] == r[i - 1] && ([s[0]] + r)[j] == r[j - 1];
        }
      }
    } else if s != [] && x != s[0] {
      forall i, j | 0 <= i < j < |[x] + s| ensures Below(([x] + s)[i], ([x] + s)[j]) {
        if i == 0 && j > 1 {
          BelowTransitive(x, s[0], s[j - 1]);
        }
      }
    }
  }

  /** `sorted(set(xs))` */
  function SortedSet(xs: seq<string>): seq<string> {
    if xs == [] then [] else Insert(xs[0], SortedSet(xs[1..]))
  }

  /** `sorted(set(xs))` is sorted strictly, so without repeats, and holds exactly the
      elements of `xs`. */
  lemma {:induction false} SortedSetCorrect(xs: seq<string>)
    ensures StrictlySorted(SortedSet(xs))
    ensures forall y :: y in SortedSet(xs) <==> y in xs
  {
    if xs != [] {
      SortedSetCorrect(xs[1..]);
      InsertSorted(xs[0], SortedSet(xs[1..]));
      assert xs == [xs[0]] + xs[1..];
    }
  }

  /** A strictly sorted list is determined by its elements: whatever order the keys came
      in, the lists compared are the same. */
  lemma {:induction false} SortedUnique(a: seq<string>, b: seq<string>)
    requires StrictlySorted(a) && StrictlySorted(b)
    ensures (forall y :: y in a <==> y in b) ==> a == b
    decreases |a|
  {
    if a == [] || b == [] {
      if a != [] {
        assert a[0] !in b;
      } else if b != [] {
        assert b[0] !in a;
      }
    } else if forall y :: y in a <==> y in b {
      assert a[0] in b;
      if a[0] != b[0] {
        var j :| 0 <= j < |b| && b[j] == a[0];
        assert b[0] in b;
        var i :| 0 <= i < |a| && a[i] == b[0];
        assert Below(b[0], a[0]);
        assert Below(a[0], b[0]);
        BelowAsymmetric(a[0], b[0]);
      }
      forall y ensures y in a[1..] <==> y in b[1..] {
        if y in a[1..] {
          var i :| 0 <= i < |a[1..]| && a[1..][i] == y;
          assert Below(a[0], a[i + 1]);
          BelowIrreflexive(y);
          assert y in b && y != b[0];
          var j :| 0 <= j < |b| && b[j] == y;
          assert j > 0 && b[1..][j - 1] == y;
        }
        if y in b[1..] {
          var j :| 0 <= j < |b[1..]| && b[1..][j] == y;
          assert Below(b[0], b[j + 1]);
          BelowIrreflexive(y);
          assert y in a && y != a[0];
          var i :| 0 <= i < |a| && a[i] == y;
          assert i > 0 && a[1..][i - 1] == y;
        }
      }
      SortedUnique(a[1..], b[1..]);
      assert a == [a[0]] + a[1..] && b == [b[0]] + b[1..];
    }
  }

  /** The URL lists `compare_scrape_sessions` returns. */
  datatype Comparison = Comparison(onlyInFirst: seq<string>, onlyInSecond: seq<string>, inBoth: seq<string>)

  /** The keys of `a` not in `b`: `set(a) - set(b)`, as a list. */
  function Without(a: seq<string>, b: seq<string>): seq<string> {
    Filter(a, (k: string) => k !in b)
  }

  /** The keys of `a` also in `b`: `set(a) & set(b)`, as a list. */
  function Within(a: seq<string>, b: seq<string>): seq<string> {
    Filter(a, (k: string) => k in b)
  }

  /** `compare_scrape_sessions(dir1, dir2)` for the two directories' metadata files: both
      statistics are read first (a file that does not parse raises), then both "pages" keys
      (a directory without metadata file raises KeyError). */
  function CompareSpec(f1: MetaFile, f2: MetaFile): Fetched<Comparison> {
    match ScrapeStats(f1)
    case Raised(e) => Raised(e)
    case Got(s1) =>
      match ScrapeStats(f2)
      case Raised(e) => Raised(e)
      case Got(s2) =>
        if s1.pages.None? || s2.pages.None? then Raised(BuiltinError("KeyError"))
        else
          var k1 := Keys(s1.pages.value);
          var k2 := Keys(s2.pages.value);
          Got(Comparison(SortedSet(Without(k1, k2)), SortedSet(Without(k2, k1)), SortedSet(Within(k1, k2))))
  }

  /** The comparison raises exactly when a metadata file is missing or does not parse, a
      parse error taking precedence. Otherwise each list is sorted without repeats; the
      first holds the URLs only the first directory has, the second those only the second
      has, the third those both have: so no URL is in two lists and together they hold every
      URL of either directory. */
  lemma CompareSessions(f1: MetaFile, f2: MetaFile)
    ensures var r := CompareSpec(f1, f2);
      r.Raised? <==> !f1.Stored? || !f2.Stored?
    ensures var r := CompareSpec(f1, f2);
      r.Raised? ==> r.error == BuiltinError(if f1.Unparseable? || f2.Unparseable? then "JSONDecodeError" else "KeyError")
    ensures var r := CompareSpec(f1, f2);
      r.Got? ==>
        var k1 := Keys(f1.document.pages.GetOr([]));
        var k2 := Keys(f2.document.pages.GetOr([]));
        StrictlySorted(r.value.onlyInFirst) && StrictlySorted(r.value.onlyInSecond) && StrictlySorted(r.value.inBoth)
          && (forall u :: u in r.value.onlyInFirst <==> u in k1 && u !in k2)
          && (forall u :: u in r.value.onlyInSecond <==> u in k2 && u !in k1)
          && (forall u :: u in r.value.inBoth <==> u in k1 && u in k2)
  {
    if f1.Stored? && f2.Stored? {
      var k1 := Keys(f1.document.pages.GetOr([]));
      var k2 := Keys(f2.document.pages.GetOr([]));
      SortedSetCorrect(Without(k1, k2));
      SortedSetCorrect(Without(k2, k1));
      SortedSetCorrect(Within(k1, k2));
    }
  }

  /** Comparing the other way round swaps the first two lists and keeps the third. */
  lemma CompareSymmetric(f1: MetaFile, f2: MetaFile)
    ensures var r := CompareSpec(f1, f2);
      var q := CompareSpec(f2, f1);
      (r.Raised? <==> q.Raised?) && (r.Raised? ==> r.error == q.error)
        && (r.Got? ==> q.value == Comparison(r.value.onlyInSecond, r.value.onlyInFirst, r.value.inBoth))
  {
    CompareSessions(f1, f2);
    CompareSessions(f2, f1);
    if f1.Stored? && f2.Stored? {
      var k1 := Keys(f1.document.pages.GetOr([]));
      var k2 := Keys(f2.document.pages.GetOr([]));
      SortedUnique(CompareSpec(f1, f2).value.inBoth, CompareSpec(f2, f1).value.inBoth);
    }
  }
}
