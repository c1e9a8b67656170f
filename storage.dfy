/** The corpus store (firecrawl_crawler/storage.py): one markdown file per saved page in an
    output directory, a metadata map from page URL to the file that holds it, persisted
    after every save, and an index file for a batch.

    The directory is a map from file name to text. The metadata file lives beside the pages
    but is kept apart, as `metaFile`: page files always end in ".md" (or ".md" followed by
    nothing at all when a counter is added to a bare ".md"), so no page can take its name. */
module Storage {
  import opened Wrappers
  import opened Strings
  import opened Seqs
  import opened Errors
  import opened Records
  import opened Filenames
  import Paths

  /** One entry of `metadata["pages"]`. Entries read back from disk may lack any key. */
  datatype PageEntry = PageEntry(file: Option<string>, scrapedAt: Option<string>, fileSize: Option<int>)

  /** The metadata document: `pages` (a JSON object, so keys keep their insertion order),
      `last_crawl`, and `last_job_id`, which other tools read. A document without "pages"
      can be read back from disk; saving into it then fails. */
  datatype Metadata = Metadata(pages: Option<Assoc<string, PageEntry>>, lastCrawl: Option<string>,
                               lastJobId: Option<string>)

  /** The metadata file as found on disk. */
  datatype MetaFile = Absent | Unparseable | Stored(document: Metadata)

  /** The state of a store: its directory, its in-memory metadata and the persisted copy. */
  datatype StoreState = StoreState(files: map<string, string>, metadata: Metadata, metaFile: MetaFile)

  /** What saving a page gives back: the path written and its file name, or the error
      raised. */
  datatype SaveResult = Saved(path: string, name: string) | Failed(error: CrawlerError)

  /** One line group of the index: title, URL and file name of a saved page. */
  datatype IndexEntry = IndexEntry(title: string, url: string, file: string)

  /** What a batch save has produced so far. */
  datatype Batch = Batch(saved: seq<string>, entries: seq<IndexEntry>, state: StoreState)

  const IndexName: string := "INDEX.md"

  /** The metadata of a directory without a previous run. */
  const FreshMetadata: Metadata := Metadata(Some([]), None, None)

  /** `_load_metadata()`: the stored document, or an empty one when the file is missing or
      does not parse. */
  function LoadMetadata(f: MetaFile): (m: Metadata)
    ensures f.Stored? ==> m == f.document
    ensures !f.Stored? ==> m.pages == Some([]) && m.lastCrawl.None? && m.lastJobId.None?
  {
    match f
    case Stored(d) => d
    case _ => FreshMetadata
  }

  /** `title or 'Untitled'`: the heading of a saved page. */
  function Heading(title: Option<string>): (h: string)
    ensures Truthy(title) ==> h == title.value
    ensures !Truthy(title) ==> h == "Untitled"
  {
    if Truthy(title) then title.value else "Untitled"
  }

  /** The text of a saved page: a level-one heading, the source line, a rule, and the
      markdown. */
  function PageText(heading: string, url: string, markdown: string): string {
    "# " + heading + "\n\n**Source:** " + url + "\n\n---\n\n" + markdown
  }

  /** Two texts that agree up to a line break, with no line break before it, agree on what
      comes before and after it. */
  lemma {:induction false} SplitAtNewline(a: string, x: string, b: string, y: string)
    requires '\n' !in a && '\n' !in b
    requires a + "\n" + x == b + "\n" + y
    ensures a == b && x == y
  {
    if a == [] || b == [] {
      assert (a + "\n" + x)[0] == (b + "\n" + y)[0];
      assert a == [] && b == [];
      assert x == (a + "\n" + x)[|a| + 1..];
      assert y == (b + "\n" + y)[|b| + 1..];
    } else {
      assert a[0] == (a + "\n" + x)[0] == (b + "\n" + y)[0] == b[0];
      assert a[1..] + "\n" + x == (a + "\n" + x)[1..];
      assert b[1..] + "\n" + y == (b + "\n" + y)[1..];
      SplitAtNewline(a[1..], x, b[1..], y);
      assert a == [a[0]] + a[1..];
      assert b == [b[0]] + b[1..];
    }
  }

  /** A common prefix can be taken off both sides of an equation. */
  lemma PrefixCancel(p: string, x: string, y: string)
    requires p + x == p + y
    ensures x == y
  {
    assert x == (p + x)[|p|..];
    assert y == (p + y)[|p|..];
  }

  /** The page text regrouped around its two line breaks that follow the heading and the
      URL. */
  lemma PageTextShape(h: string, u: string, m: string)
    ensures PageText(h, u, m) == "# " + (h + "\n" + ("\n**Source:** " + (u + "\n" + ("\n---\n\n" + m))))
  {
    assert "\n\n**Source:** " == "\n" + "\n**Source:** ";
    assert "\n\n---\n\n" == "\n" + "\n---\n\n";
  }

  /** Heading, source and content can be read back from a page file when neither the
      heading nor the URL holds a line break: different pages give different texts. */
  lemma PageTextInjective(h1: string, u1: string, m1: string, h2: string, u2: string, m2: string)
    requires '\n' !in h1 && '\n' !in h2 && '\n' !in u1 && '\n' !in u2
    requires PageText(h1, u1, m1) == PageText(h2, u2, m2)
    ensures h1 == h2 && u1 == u2 && m1 == m2
  {
    PageTextShape(h1, u1, m1);
    PageTextShape(h2, u2, m2);
    var s1, s2 := "\n---\n\n" + m1, "\n---\n\n" + m2;
    var r1, r2 := "\n**Source:** " + (u1 + "\n" + s1), "\n**Source:** " + (u2 + "\n" + s2);
    PrefixCancel("# ", h1 + "\n" + r1, h2 + "\n" + r2);
    SplitAtNewline(h1, r1, h2, r2);
    PrefixCancel("\n**Source:** ", u1 + "\n" + s1, u2 + "\n" + s2);
    SplitAtNewline(u1, s1, u2, s2);
    PrefixCancel("\n---\n\n", m1, m2);
  }

  /** The file name a page is saved under before collisions are resolved: the custom name
      with ".md" added when missing, when one is given, else the generated one. */
  function PageName(p: Page, custom: Option<string>): string {
    if Truthy(custom) then WithMd(custom.value) else GenerateFilename(PageKey(p), p.metaTitle)
  }

  /** The text written for a page. */
  function PageContent(p: Page): string {
    PageText(Heading(p.metaTitle), PageKey(p), p.markdown.GetOr(""))
  }

  /** `str(self.output_dir / name)` with `self.output_dir = Path(dir)`: pathlib parses the
      directory (dropping "." components and extra slashes), joins the name to it and
      renders the result. */
  function PathIn(dir: string, name: string): string {
    Paths.PathStr(Paths.JoinPath(Paths.PathStr(dir), name))
  }

  /** A file saved under a single-component name is recorded as the normalised directory
      followed by the name; under the default directory "./output" that is "output/" and
      the name. */
  lemma PathInDirectory(dir: string, name: string)
    requires Paths.IsComponent(name) && '/' !in name
    ensures PathIn(dir, name) == Paths.DirPrefix(dir) + name
    ensures PathIn("./output", name) == "output/" + name
  {
    Paths.JoinedName(dir, name);
    Paths.CommonDirectories(name);
  }

  /** `_update_page_metadata(url, path)` on a document: the entry of `url` is replaced (a new
      URL is appended), `last_crawl` is set; a document without "pages" raises KeyError. */
  function UpdatePages(m: Metadata, url: string, entry: PageEntry, now: string): (r: Result)
  {
    if m.pages.None? then Err(BuiltinError("KeyError"))
    else Ok(Metadata(Some(Put(m.pages.value, url, entry)), Some(now), m.lastJobId))
  }

  datatype Result = Ok(metadata: Metadata) | Err(error: CrawlerError)

  /** `save_single_page(page, custom)` on a store whose directory is `dir`, for the file
      name `proposed` (`PageName(page, custom)`): the page is written under the first
      variant of that name no file has yet, then its metadata entry is updated and the
      metadata persisted. A failed write (`writeOk` false) changes nothing; a document
      without "pages" keeps the new file but raises before the metadata changes. */
  function SaveSpec(st: StoreState, dir: string, p: Page, proposed: string, now: string,
                    writeOk: bool): (Result: (SaveResult, StoreState))
  {
    var name := UniqueName(st.files.Keys, proposed);
    var text := PageContent(p);
    if !writeOk then (Failed(BuiltinError("OSError")), st)
    else
      var files := st.files[name := text];
      var entry := PageEntry(Some(PathIn(dir, name)), Some(now), Some(Utf8Length(text)));
      match UpdatePages(st.metadata, PageKey(p), entry, now)
      case Err(e) => (Failed(e), st.(files := files))
      case Ok(m) => (Saved(PathIn(dir, name), name), StoreState(files, m, Stored(m)))
  }

  /** A save never overwrites a file: a successful write adds exactly one file, under a name
      that was free, and every other file keeps its text. */
  lemma SaveNeverOverwrites(st: StoreState, dir: string, p: Page, proposed: string, now: string, writeOk: bool)
    ensures var (r, st') := SaveSpec(st, dir, p, proposed, now, writeOk);
      forall f :: f in st.files ==> f in st'.files && st'.files[f] == st.files[f]
    ensures var (r, st') := SaveSpec(st, dir, p, proposed, now, writeOk);
      r.Saved? ==> (r.name !in st.files && st'.files.Keys == st.files.Keys + {r.name}
        && st'.files[r.name] == PageContent(p) && r.path == PathIn(dir, r.name))
    ensures var (r, st') := SaveSpec(st, dir, p, proposed, now, writeOk);
      !writeOk ==> r == Failed(BuiltinError("OSError")) && st' == st
  {
  }

  /** After a successful save the page's URL has exactly one entry, pointing at the file just
      written; every other URL's entry is as before, and `last_job_id` is untouched. */
  lemma SaveUpdatesOneEntry(st: StoreState, dir: string, p: Page, proposed: string, now: string, writeOk: bool)
    ensures var (r, st') := SaveSpec(st, dir, p, proposed, now, writeOk);
      r.Saved? ==> (st'.metadata.pages.Some? && st.metadata.pages.Some? && st'.metaFile == Stored(st'.metadata)
        && Get(st'.metadata.pages.value, PageKey(p))
           == Some(PageEntry(Some(r.path), Some(now), Some(Utf8Length(PageContent(p)))))
        && (forall u :: u != PageKey(p) ==> Get(st'.metadata.pages.value, u) == Get(st.metadata.pages.value, u))
        && st'.metadata.lastJobId == st.metadata.lastJobId)
    ensures var (r, st') := SaveSpec(st, dir, p, proposed, now, writeOk);
      st.metadata.pages.Some? && DistinctKeys(st.metadata.pages.value) ==>
        st'.metadata.pages.Some? && DistinctKeys(st'.metadata.pages.value)
    ensures var (r, st') := SaveSpec(st, dir, p, proposed, now, writeOk);
      st.metadata.pages.None? ==> r.Failed? && st'.metadata == st.metadata
  {
    var (r, st') := SaveSpec(st, dir, p, proposed, now, writeOk);
    if r.Saved? {
      var entry := PageEntry(Some(r.path), Some(now), Some(Utf8Length(PageContent(p))));
      forall u ensures Get(st'.metadata.pages.value, u) == if u == PageKey(p) then Some(entry) else Get(st.metadata.pages.value, u) {
        GetPut(st.metadata.pages.value, PageKey(p), entry, u);
      }
    }
    if writeOk && st.metadata.pages.Some? && DistinctKeys(st.metadata.pages.value) {
      var entry := PageEntry(Some(PathIn(dir, r.name)), Some(now), Some(Utf8Length(PageContent(p))));
      PutKeepsKeysDistinct(st.metadata.pages.value, PageKey(p), entry);
    }
  }

  /** Saving the same page twice writes two different files; the URL's entry then points at
      the second, and the first file is still there with the same text. */
  lemma ResaveWritesFreshFile(st: StoreState, dir: string, p: Page, proposed: string, now1: string, now2: string)
    requires st.metadata.pages.Some?
    ensures var (r1, st1) := SaveSpec(st, dir, p, proposed, now1, true);
      var (r2, st2) := SaveSpec(st1, dir, p, proposed, now2, true);
      r1.Saved? && r2.Saved? && r1.name != r2.name
        && r1.name in st2.files && st2.files[r1.name] == st2.files[r2.name]
        && Get(st2.metadata.pages.value, PageKey(p)).value.file == Some(PathIn(dir, r2.name))
  {
    var (r1, st1) := SaveSpec(st, dir, p, proposed, now1, true);
    SaveNeverOverwrites(st, dir, p, proposed, now1, true);
    SaveNeverOverwrites(st1, dir, p, proposed, now2, true);
    SaveUpdatesOneEntry(st1, dir, p, proposed, now2, true);
  }

  /** `metadata.get("title", "Untitled")`, the title listed in the index. */
  function IndexTitle(p: Page): (t: string)
    ensures p.metaTitle.Some? ==> t == p.metaTitle.value
    ensures p.metaTitle.None? ==> t == "Untitled"
  {
    p.metaTitle.GetOr("Untitled")
  }

  /** `metadata.url or url or ""`, the URL listed in the index. */
  function IndexUrl(p: Page): (u: string)
    ensures Truthy(p.metaUrl) ==> u == p.metaUrl.value
    ensures !Truthy(p.metaUrl) ==> u == p.url.GetOr("")
  {
    if Truthy(p.metaUrl) then p.metaUrl.value else p.url.GetOr("")
  }

  /** The loop of `save_multiple_pages` over the first `k` pages: each page is saved in turn,
      the page with index `i` failing to write exactly when `i in failures`; a page whose
      save raises is skipped and the loop goes on. */
  function SaveLoop(st: StoreState, dir: string, pages: seq<Page>, names: seq<string>, now: string, failures: set<nat>, k: nat): (b: Batch)
    requires k <= |pages| == |names|
  {
    if k == 0 then Batch([], [], st)
    else
      var b := SaveLoop(st, dir, pages, names, now, failures, k - 1);
      var p := pages[k - 1];
      var (r, st') := SaveSpec(b.state, dir, p, names[k - 1], now, k - 1 !in failures);
      if r.Saved? then Batch(b.saved + [r.path], b.entries + [IndexEntry(IndexTitle(p), IndexUrl(p), r.name)], st')
      else Batch(b.saved, b.entries, st')
  }

  /** One turn of the batch loop: the batch after page `k` extends the batch before it by
      that page's save. */
  lemma SaveLoopStep(st: StoreState, dir: string, pages: seq<Page>, names: seq<string>, now: string, failures: set<nat>, k: nat,
                     r: SaveResult, st': StoreState)
    requires k < |pages| == |names|
    requires (r, st') == SaveSpec(SaveLoop(st, dir, pages, names, now, failures, k).state, dir, pages[k], names[k], now, k !in failures)
    ensures var b := SaveLoop(st, dir, pages, names, now, failures, k);
      SaveLoop(st, dir, pages, names, now, failures, k + 1)
        == if r.Saved? then Batch(b.saved + [r.path], b.entries + [IndexEntry(IndexTitle(pages[k]), IndexUrl(pages[k]), r.name)], st')
           else Batch(b.saved, b.entries, st')
  {
  }

  /** The number of the first `k` pages whose write succeeds. */
  function Successes(k: nat, failures: set<nat>): nat {
    if k == 0 then 0 else Successes(k - 1, failures) + (if k - 1 in failures then 0 else 1)
  }

  /** With a well-formed document every page whose write succeeds is saved, in input order,
      whatever happened to the pages before it; each saved path names its index entry's
      file. */
  lemma {:induction false} SaveLoopCounts(st: StoreState, dir: string, pages: seq<Page>, names: seq<string>, now: string, failures: set<nat>, k: nat)
    requires k <= |pages| == |names|
    requires st.metadata.pages.Some?
    ensures var b := SaveLoop(st, dir, pages, names, now, failures, k);
      |b.saved| == |b.entries| == Successes(k, failures) && b.state.metadata.pages.Some?
    ensures var b := SaveLoop(st, dir, pages, names, now, failures, k);
      forall j :: 0 <= j < |b.saved| ==> b.saved[j] == PathIn(dir, b.entries[j].file) && b.entries[j].file in b.state.files
  {
    hide IndexTitle, IndexUrl, PageContent, UniqueName, PathIn;
    if k > 0 {
      SaveLoopCounts(st, dir, pages, names, now, failures, k - 1);
      var b := SaveLoop(st, dir, pages, names, now, failures, k - 1);
      SaveNeverOverwrites(b.state, dir, pages[k - 1], names[k - 1], now, k - 1 !in failures);
    }
  }

  /** The pages among the first `k` whose write succeeds, in page order. */
  function Kept(pages: seq<Page>, failures: set<nat>, k: nat): (r: seq<Page>)
    requires k <= |pages|
    ensures |r| == Successes(k, failures)
  {
    if k == 0 then [] else Kept(pages, failures, k - 1) + (if k - 1 in failures then [] else [pages[k - 1]])
  }

  /** `Kept` grows by the `k`-th page unless its write fails. */
  lemma KeptStep(pages: seq<Page>, failures: set<nat>, k: nat)
    requires 0 < k <= |pages|
    ensures Kept(pages, failures, k) == Kept(pages, failures, k - 1) + (if k - 1 in failures then [] else [pages[k - 1]])
  {
  }

  /** A page whose write fails leaves the batch as it was: nothing is reported, no file is
      written and the metadata is untouched, so the pages after it are saved on the same
      store. */
  lemma SaveLoopSkipsFailure(st: StoreState, dir: string, pages: seq<Page>, names: seq<string>, now: string, failures: set<nat>, k: nat)
    requires k < |pages| == |names| && k in failures
    ensures SaveLoop(st, dir, pages, names, now, failures, k + 1) == SaveLoop(st, dir, pages, names, now, failures, k)
  {
    var b := SaveLoop(st, dir, pages, names, now, failures, k);
    SaveNeverOverwrites(b.state, dir, pages[k], names[k], now, false);
  }

  /** The pages kept keep the order of the input. */
  lemma {:induction false} KeptInOrder(pages: seq<Page>, failures: set<nat>, k: nat)
    requires k <= |pages|
    ensures IsSubsequence(Kept(pages, failures, k), pages[..k])
  {
    if k == 0 {
      assert pages[..0] == [];
    } else {
      KeptInOrder(pages, failures, k - 1);
      assert pages[..k] == pages[..k - 1] + [pages[k - 1]];
      var before := Kept(pages, failures, k - 1);
      SubsequenceSnoc(before, pages[..k - 1], pages[k - 1]);
      if k - 1 in failures {
        assert Kept(pages, failures, k) == before + [] == before;
      }
    }
  }

  /** On a well-formed document a save succeeds exactly when its write does, and the
      document stays well-formed. */
  lemma SavedIffWritten(st: StoreState, dir: string, p: Page, proposed: string, now: string, writeOk: bool)
    requires st.metadata.pages.Some?
    ensures var (r, st') := SaveSpec(st, dir, p, proposed, now, writeOk);
      (r.Saved? <==> writeOk) && st'.metadata.pages.Some?
  {
  }

  /** What an index entry says about its page: the title and the URL. */
  function EntryHead(e: IndexEntry): (string, string) {
    (e.title, e.url)
  }

  /** The title and URL the index lists for a page. */
  function PageHead(p: Page): (string, string) {
    (IndexTitle(p), IndexUrl(p))
  }

  /** Before the first page the batch has nothing and the store is untouched. */
  lemma SaveLoopStart(st: StoreState, dir: string, pages: seq<Page>, names: seq<string>, now: string, failures: set<nat>)
    requires |pages| == |names|
    ensures SaveLoop(st, dir, pages, names, now, failures, 0) == Batch([], [], st)
  {
  }

  /** With a well-formed document the index entries of a batch list, in order, the title and
      URL of exactly the pages whose write succeeded. */
  lemma {:induction false} SaveLoopListsKept(st: StoreState, dir: string, pages: seq<Page>, names: seq<string>, now: string, failures: set<nat>, k: nat)
    requires k <= |pages| == |names|
    requires st.metadata.pages.Some?
    ensures var b := SaveLoop(st, dir, pages, names, now, failures, k);
      b.state.metadata.pages.Some? && Map(b.entries, EntryHead) == Map(Kept(pages, failures, k), PageHead)
  {
    hide SaveLoop;
    if k == 0 {
      SaveLoopStart(st, dir, pages, names, now, failures);
      assert Kept(pages, failures, 0) == [];
      assert Map([], EntryHead) == [] && Map([], PageHead) == [];
    } else {
      var p := pages[k - 1];
      var kept := Kept(pages, failures, k - 1);
      assert Map([p], PageHead) == [PageHead(p)];
      KeptStep(pages, failures, k);
      hide *;
      var b := SaveLoop(st, dir, pages, names, now, failures, k);
      SaveLoopListsKept(st, dir, pages, names, now, failures, k - 1);
      SaveLoopListsStep(st, dir, pages, names, now, failures, k);
      var before := Map(SaveLoop(st, dir, pages, names, now, failures, k - 1).entries, EntryHead);
      if k - 1 !in failures {
        MapAppend(kept, [p], PageHead);
        assert Map(b.entries, EntryHead) == before + [PageHead(p)];
        assert Kept(pages, failures, k) == kept + [p];
      } else {
        assert Map(b.entries, EntryHead) == before + [] == before;
        assert Kept(pages, failures, k) == kept + [] == kept;
      }
    }
  }

  /** One turn of the batch loop on a well-formed document lists the page exactly when its
      write succeeds. */
  lemma SaveLoopListsStep(st: StoreState, dir: string, pages: seq<Page>, names: seq<string>, now: string, failures: set<nat>, k: nat)
    requires 0 < k <= |pages| == |names|
    requires SaveLoop(st, dir, pages, names, now, failures, k - 1).state.metadata.pages.Some?
    ensures var b := SaveLoop(st, dir, pages, names, now, failures, k - 1);
      var b' := SaveLoop(st, dir, pages, names, now, failures, k);
      b'.state.metadata.pages.Some?
        && Map(b'.entries, EntryHead) == Map(b.entries, EntryHead) + (if k - 1 in failures then [] else [PageHead(pages[k - 1])])
  {
    var b := SaveLoop(st, dir, pages, names, now, failures, k - 1);
    var p := pages[k - 1];
    var ok := k - 1 !in failures;
    var saved := SaveSpec(b.state, dir, p, names[k - 1], now, ok);
    SavedIffWritten(b.state, dir, p, names[k - 1], now, ok);
    hide *;
    SaveLoopStep(st, dir, pages, names, now, failures, k - 1, saved.0, saved.1);
    if ok {
      MapAppend(b.entries, [IndexEntry(IndexTitle(p), IndexUrl(p), saved.0.name)], EntryHead);
    }
  }

  /** With a document that lacks "pages" every save raises, so nothing is reported saved
      and no index is due, though the page files are written. */
  lemma {:induction false} SaveLoopWithoutPages(st: StoreState, dir: string, pages: seq<Page>, names: seq<string>, now: string, failures: set<nat>, k: nat)
    requires k <= |pages| == |names|
    requires st.metadata.pages.None?
    ensures var b := SaveLoop(st, dir, pages, names, now, failures, k);
      b.saved == [] && b.entries == [] && b.state.metadata == st.metadata
  {
    if k > 0 {
      SaveLoopWithoutPages(st, dir, pages, names, now, failures, k - 1);
    }
  }

  /** The names the pages of a batch are saved under before collisions are resolved: each
      page's generated name. */
  function Proposals(pages: seq<Page>): (r: seq<string>)
    ensures |r| == |pages|
  {
    if pages == [] then [] else Proposals(pages[..|pages| - 1]) + [PageName(pages[|pages| - 1], None)]
  }

  lemma {:induction false} ProposalsAt(pages: seq<Page>, i: nat)
    requires i < |pages|
    ensures Proposals(pages)[i] == PageName(pages[i], None)
    decreases |pages|
  {
    if i < |pages| - 1 {
      ProposalsAt(pages[..|pages| - 1], i);
    }
  }

  /** One index section. */
  function Section(e: IndexEntry): string {
    "## " + e.title + "\n\n" + "- **URL:** " + e.url + "\n" + "- **File:** [" + e.file + "](./" + e.file + ")\n\n"
  }

  /** The sections of `entries`, in order. */
  function Sections(entries: seq<IndexEntry>): string {
    Flatten(entries, Section)
  }

  /** The index's opening: title, page count and rule. */
  function IndexHeader(n: nat): string {
    "# Crawled Pages Index\n\n" + "Total pages: " + NatToString(n) + "\n\n" + "---\n\n"
  }

  /** The text of INDEX.md. */
  function IndexText(entries: seq<IndexEntry>): string {
    IndexHeader(|entries|) + Sections(entries)
  }

  /** The index reads as its opening, whose count is the number of entries, followed by one
      section per entry in entry order: the sections of the entries before `i`, then entry
      `i`'s, then those after it. */
  lemma IndexLayout(entries: seq<IndexEntry>, i: nat)
    requires i < |entries|
    ensures IndexText(entries) == IndexHeader(|entries|) + Sections(entries[..i]) + Section(entries[i]) + Sections(entries[i + 1..])
  {
    hide IndexHeader, Section;
    var pre, e, post := entries[..i], entries[i], entries[i + 1..];
    assert entries == pre + [e] + post;
    FlattenAround(pre, e, post, Section);
  }

  /** `save_multiple_pages(pages, create_index)`: the batch loop, then the index, written
      (replacing any previous one) only when asked for and at least one page was saved. */
  function SaveManySpec(st: StoreState, dir: string, pages: seq<Page>, names: seq<string>, createIndex: bool, now: string, failures: set<nat>): (b: Batch)
    requires |pages| == |names|
  {
    var b := SaveLoop(st, dir, pages, names, now, failures, |pages|);
    if createIndex && b.entries != [] then b.(state := b.state.(files := b.state.files[IndexName := IndexText(b.entries)]))
    else b
  }

  /** A batch is its loop followed, when asked for and something was saved, by the index. */
  lemma SaveManyAfterLoop(st: StoreState, dir: string, pages: seq<Page>, names: seq<string>, createIndex: bool, now: string, failures: set<nat>, b: Batch)
    requires |pages| == |names|
    requires b == SaveLoop(st, dir, pages, names, now, failures, |pages|)
    ensures SaveManySpec(st, dir, pages, names, createIndex, now, failures)
      == if createIndex && b.entries != [] then b.(state := b.state.(files := b.state.files[IndexName := IndexText(b.entries)])) else b
  {
  }

  /** The index exists after a batch exactly as the batch asked and saved something, and
      then lists every saved page; otherwise the batch leaves whatever INDEX.md was there. */
  lemma IndexWrittenIff(st: StoreState, dir: string, pages: seq<Page>, names: seq<string>, createIndex: bool, now: string, failures: set<nat>)
    requires |pages| == |names|
    ensures var b := SaveManySpec(st, dir, pages, names, createIndex, now, failures);
      var loop := SaveLoop(st, dir, pages, names, now, failures, |pages|);
      b.saved == loop.saved && b.entries == loop.entries
        && (createIndex && |b.saved| > 0 ==> IndexName in b.state.files && b.state.files[IndexName] == IndexText(b.entries))
        && (!(createIndex && |b.saved| > 0) ==> b.state == loop.state)
  {
    var loop := SaveLoop(st, dir, pages, names, now, failures, |pages|);
    if st.metadata.pages.Some? {
      SaveLoopCounts(st, dir, pages, names, now, failures, |pages|);
    } else {
      SaveLoopWithoutPages(st, dir, pages, names, now, failures, |pages|);
    }
  }

  /** A page whose generated name is INDEX.md, saved in a batch that writes an index, is
      replaced by the index, while its metadata entry still names that path as the page's
      file. */
  lemma IndexMayReplacePage(st: StoreState, dir: string, p: Page, now: string)
    requires st.metadata.pages.Some?
    requires IndexName !in st.files && PageName(p, None) == IndexName
    ensures var b := SaveManySpec(st, dir, [p], [IndexName], true, now, {});
      b.saved == [PathIn(dir, IndexName)] && b.state.metadata.pages.Some?
        && Get(b.state.metadata.pages.value, PageKey(p)).Some?
        && Get(b.state.metadata.pages.value, PageKey(p)).value.file == Some(PathIn(dir, IndexName))
        && IndexName in b.state.files && b.state.files[IndexName] == IndexText(b.entries)
  {
    var b0 := SaveLoop(st, dir, [p], [IndexName], now, {}, 0);
    assert b0 == Batch([], [], st);
    SaveUpdatesOneEntry(st, dir, p, IndexName, now, true);
  }

  /** The state of a store just opened over a directory holding `existing` and, maybe, a
      metadata file. */
  function Opened(existing: map<string, string>, metaFile: MetaFile): StoreState {
    StoreState(existing, LoadMetadata(metaFile), metaFile)
  }

  /** A store over one output directory (`MarkdownStorage`). */
  class MarkdownStorage {
    var outputDir: string
    var files: map<string, string>
    var metadata: Metadata
    var metaFile: MetaFile

    function State(): StoreState
      reads this
    {
      StoreState(files, metadata, metaFile)
    }

    /** `MarkdownStorage(output_dir)` over a directory that holds `existing` and, maybe, a
        metadata file. */
    constructor(outputDir: string, existing: map<string, string>, metaFile: MetaFile)
      ensures this.outputDir == outputDir && files == existing && this.metaFile == metaFile
      ensures metadata == LoadMetadata(metaFile)
    {
      this.outputDir := outputDir;
      files := existing;
      this.metaFile := metaFile;
      metadata := LoadMetadata(metaFile);
    }

    /** `get_scraped_urls()`: the URLs with an entry, in insertion order. */
    function ScrapedUrls(): (r: seq<string>)
      reads this
      ensures forall u :: u in r <==> Get(metadata.pages.GetOr([]), u).Some?
    {
      Keys(metadata.pages.GetOr([]))
    }

    /** `get_page_info(url)` */
    function PageInfo(url: string): (r: Option<PageEntry>)
      reads this
      ensures r.Some? <==> url in ScrapedUrls()
    {
      Get(metadata.pages.GetOr([]), url)
    }

    /** `_update_page_metadata(url, path)` for the file `name` of this directory; the size is
        that of its UTF-8 text, 0 when it does not exist. */
    method UpdatePageMetadata(url: string, name: string, now: string) returns (err: Option<CrawlerError>)
      modifies this
      ensures var entry := PageEntry(Some(PathIn(outputDir, name)), Some(now),
                                     Some(if name in files then Utf8Length(files[name]) else 0));
        match UpdatePages(old(metadata), url, entry, now)
        case Err(e) => err == Some(e) && metadata == old(metadata) && metaFile == old(metaFile)
        case Ok(m) => err.None? && metadata == m && metaFile == Stored(m)
      ensures files == old(files) && outputDir == old(outputDir)
    {
      if metadata.pages.None? {
        return Some(BuiltinError("KeyError"));
      }
      var size := if name in files then Utf8Length(files[name]) else 0;
      var entry := PageEntry(Some(PathIn(outputDir, name)), Some(now), Some(size));
      metadata := Metadata(Some(Put(metadata.pages.value, url, entry)), Some(now), metadata.lastJobId);
      metaFile := Stored(metadata);
      err := None;
    }

    /** `save_single_page(page, custom)`; `writeOk` says whether writing the page file
        succeeds. */
    method SaveSinglePage(p: Page, custom: Option<string>, now: string, writeOk: bool) returns (r: SaveResult)
      modifies this
      ensures (r, State()) == SaveSpec(old(State()), outputDir, p, PageName(p, custom), now, writeOk)
      ensures outputDir == old(outputDir)
    {
      var url := PageKey(p);
      var filename := PageName(p, custom);
      var name := EnsureUniqueFilename(files.Keys, filename);
      var content := PageText(Heading(p.metaTitle), url, p.markdown.GetOr(""));
      if !writeOk {
        return Failed(BuiltinError("OSError"));
      }
      files := files[name := content];
      var err := UpdatePageMetadata(url, name, now);
      if err.Some? {
        return Failed(err.value);
      }
      r := Saved(PathIn(outputDir, name), name);
    }

    /** `_create_index_file(entries)`: INDEX.md is written afresh. */
    method CreateIndexFile(entries: seq<IndexEntry>)
      modifies this
      ensures files == old(files)[IndexName := IndexText(entries)]
      ensures metadata == old(metadata) && metaFile == old(metaFile) && outputDir == old(outputDir)
    {
      var content := IndexHeader(|entries|);
      var i := 0;
      while i < |entries|
        invariant 0 <= i <= |entries|
        invariant content == IndexHeader(|entries|) + Sections(entries[..i])
      {
        assert entries[..i + 1][..i] == entries[..i];
        content := content + Section(entries[i]);
        i := i + 1;
      }
      assert entries[..|entries|] == entries;
      files := files[IndexName := content];
    }

    /** `save_multiple_pages(pages, create_index)`; the page with index `i` fails to write
        exactly when `i in failures`. */
    method SaveMultiplePages(pages: seq<Page>, createIndex: bool, now: string, failures: set<nat>) returns (saved: seq<string>)
      modifies this
      ensures var b := SaveManySpec(old(State()), outputDir, pages, Proposals(pages), createIndex, now, failures);
        saved == b.saved && State() == b.state
      ensures outputDir == old(outputDir)
    {
      // the loop only needs what the per-page lemmas state, not how names and saves are computed
      hide PageName, SaveSpec;
      ghost var start := State();
      ghost var names := Proposals(pages);
      saved := [];
      var entries: seq<IndexEntry> := [];
      var i := 0;
      while i < |pages|
        invariant 0 <= i <= |pages| && outputDir == old(outputDir)
        invariant Batch(saved, entries, State()) == SaveLoop(start, outputDir, pages, names, now, failures, i)
      {
        var p := pages[i];
        ProposalsAt(pages, i);
        var r := SaveSinglePage(p, None, now, i !in failures);
        SaveLoopStep(start, outputDir, pages, names, now, failures, i, r, State());
        if r.Saved? {
          saved := saved + [r.path];
          entries := entries + [IndexEntry(IndexTitle(p), IndexUrl(p), r.name)];
        }
        i := i + 1;
      }
      ghost var loop := Batch(saved, entries, State());
      SaveManyAfterLoop(start, outputDir, pages, names, createIndex, now, failures, loop);
      if createIndex && entries != [] {
        CreateIndexFile(entries);
        assert State() == loop.state.(files := loop.state.files[IndexName := IndexText(entries)]);
      }
    }
  }
}
