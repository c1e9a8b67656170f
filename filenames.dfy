/** File names for saved pages (firecrawl_crawler/storage.py:81-149): sanitising, derivation
    from the title or URL, and the collision-free choice of a name in the output directory. */
module Filenames {
  import opened Wrappers
  import opened Strings
  import Urls

  /** The characters `r'[<>:"/\\|?*]'` matches. */
  const Forbidden: set<char> := {'<', '>', ':', '"', '/', '\\', '|', '?', '*'}

  /** `re.sub(r'[<>:"/\\|?*]', '-', text)` */
  function ReplaceForbidden(s: string): (r: string)
    ensures |r| == |s|
  {
    if s == [] then [] else [if s[0] in Forbidden then '-' else s[0]] + ReplaceForbidden(s[1..])
  }

  /** No character of `s` is one the file system forbids. */
  predicate NoForbidden(s: string) {
    forall i :: 0 <= i < |s| ==> s[i] !in Forbidden
  }

  /** No character of `s` is whitespace. */
  predicate NoSpace(s: string) {
    forall i :: 0 <= i < |s| ==> !IsSpace(s[i])
  }

  /** Each forbidden character becomes a dash and every other one stays: none is left. */
  lemma {:induction false} ReplaceForbiddenSafe(s: string)
    ensures forall i :: 0 <= i < |s| ==> ReplaceForbidden(s)[i] == if s[i] in Forbidden then '-' else s[i]
    ensures NoForbidden(ReplaceForbidden(s))
  {
    if s != [] {
      ReplaceForbiddenSafe(s[1..]);
      var r := ReplaceForbidden(s);
      forall i | 0 <= i < |s| ensures r[i] == if s[i] in Forbidden then '-' else s[i] {
        if i > 0 { assert r[i] == ReplaceForbidden(s[1..])[i - 1]; }
      }
    }
  }

  /** The characters `[-\s]` matches. */
  predicate IsDashOrSpace(c: char) {
    c == '-' || IsSpace(c)
  }

  /** No two dashes in a row. */
  predicate NoDoubleDash(s: string) {
    forall i :: 0 <= i < |s| - 1 ==> !(s[i] == '-' && s[i + 1] == '-')
  }

  /** The text after a leading run of dashes and whitespace. */
  function SkipRun(s: string): (r: string)
    ensures |r| <= |s| && r == s[|s| - |r|..]
    ensures r == [] || !IsDashOrSpace(r[0])
    ensures s != [] && IsDashOrSpace(s[0]) ==> |r| < |s|
  {
    if s != [] && IsDashOrSpace(s[0]) then SkipRun(s[1..]) else s
  }

  /** `re.sub(r'[-\s]+', '-', text)`: every maximal run of dashes and whitespace becomes one
      dash. */
  function CollapseRuns(s: string): (r: string)
    decreases |s|
  {
    if s == [] then []
    else if IsDashOrSpace(s[0]) then ['-'] + CollapseRuns(SkipRun(s))
    else [s[0]] + CollapseRuns(s[1..])
  }

  /** A slice of a text without forbidden characters has none. */
  lemma NoForbiddenSlice(s: string, i: nat, j: nat)
    requires i <= j <= |s| && NoForbidden(s)
    ensures NoForbidden(s[i..j])
  {
    forall k | 0 <= k < j - i ensures s[i..j][k] !in Forbidden {
      assert s[i..j][k] == s[i + k];
    }
  }

  /** Collapsing never lengthens the text, empties it only when it was empty, and keeps its
      first character, or turns it into a dash when it was a dash or a space. */
  lemma {:induction false} CollapseRunsShape(s: string)
    ensures var r := CollapseRuns(s); |r| <= |s| && (s == [] <==> r == [])
    ensures s != [] ==> CollapseRuns(s)[0] == if IsDashOrSpace(s[0]) then '-' else s[0]
    decreases |s|
  {
    if s != [] {
      CollapseRunsShape(if IsDashOrSpace(s[0]) then SkipRun(s) else s[1..]);
    }
  }

  /** Collapsing adds no forbidden character. */
  lemma {:induction false} CollapseRunsKeepsSafe(s: string)
    requires NoForbidden(s)
    ensures NoForbidden(CollapseRuns(s))
    decreases |s|
  {
    if s != [] {
      var rest := if IsDashOrSpace(s[0]) then SkipRun(s) else s[1..];
      NoForbiddenSlice(s, |s| - |rest|, |s|);
      CollapseRunsKeepsSafe(rest);
      var c := CollapseRuns(rest);
      var r := CollapseRuns(s);
      assert r == [r[0]] + c;
      forall i | 0 <= i < |r| ensures r[i] !in Forbidden {
        if i > 0 { assert r[i] == c[i - 1]; }
      }
    }
  }

  lemma DashIsNotSpace()
    ensures !IsSpace('-')
  {
  }

  /** After collapsing, no whitespace is left. */
  lemma {:induction false} CollapseRunsNoSpace(s: string)
    ensures NoSpace(CollapseRuns(s))
    decreases |s|
  {
    DashIsNotSpace();
    hide IsSpace;
    if s != [] {
      var rest := if IsDashOrSpace(s[0]) then SkipRun(s) else s[1..];
      CollapseRunsNoSpace(rest);
      var c := CollapseRuns(rest);
      var r := CollapseRuns(s);
      assert r == [r[0]] + c;
      forall i | 0 <= i < |r| ensures !IsSpace(r[i]) {
        if i > 0 { assert r[i] == c[i - 1]; }
      }
    }
  }

  /** After collapsing, no two dashes are adjacent. */
  lemma {:induction false} CollapseRunsNoDoubleDash(s: string)
    ensures NoDoubleDash(CollapseRuns(s))
    decreases |s|
  {
    hide IsSpace;
    if s != [] {
      var rest := if IsDashOrSpace(s[0]) then SkipRun(s) else s[1..];
      CollapseRunsNoDoubleDash(rest);
      CollapseRunsShape(rest);
      var c := CollapseRuns(rest);
      var r := CollapseRuns(s);
      assert r == [r[0]] + c;
      assert IsDashOrSpace(s[0]) ==> c == [] || c[0] != '-';
      forall i | 0 <= i < |r| - 1 ensures !(r[i] == '-' && r[i + 1] == '-') {
        if i > 0 { assert r[i] == c[i - 1] && r[i + 1] == c[i]; }
      }
    }
  }

  /** `text[:200]` */
  function Truncate(s: string, n: nat): (r: string)
    ensures |r| == if |s| <= n then |s| else n
    ensures r == s[..|r|]
  {
    if |s| <= n then s else s[..n]
  }

  /** The first three steps of `_sanitize_filename`: forbidden characters become dashes,
      leading and trailing dots and spaces are stripped, and the text is cut to 200
      characters. */
  function Trimmed(text: string): string {
    Truncate(StripChars(ReplaceForbidden(text), {'.', ' '}), 200)
  }

  /** The trimmed text is at most 200 characters long, holds no forbidden character and
      does not start with a dot. */
  lemma TrimmedSafe(text: string)
    ensures var r := Trimmed(text); |r| <= 200 && NoForbidden(r) && (r != [] ==> r[0] != '.')
  {
    var replaced := ReplaceForbidden(text);
    ReplaceForbiddenSafe(text);
    var l := LStripChars(replaced, {'.', ' '});
    var stripped := RStripChars(l, {'.', ' '});
    assert stripped == StripChars(replaced, {'.', ' '});
    NoForbiddenSlice(replaced, |replaced| - |l|, |replaced|);
    NoForbiddenSlice(l, 0, |stripped|);
    var r := Truncate(stripped, 200);
    NoForbiddenSlice(stripped, 0, |r|);
    assert r != [] ==> r[0] == stripped[0];
  }

  /** `text or "untitled"` */
  function OrUntitled(s: string): string {
    if s == [] then "untitled" else s
  }

  /** `_sanitize_filename(text)`: the trimmed text with runs of dashes and whitespace
      collapsed to one dash, or "untitled" when nothing is left. */
  function Sanitize(text: string): string {
    OrUntitled(CollapseRuns(Trimmed(text)))
  }

  /** The name `_sanitize_filename` makes can be used as one path component: it is not
      empty, at most 200 characters long, holds no forbidden character, no whitespace and no
      double dash, and does not start with a dot. */
  lemma SanitizeSafe(text: string)
    ensures var r := Sanitize(text); r != [] && |r| <= 200 && r[0] != '.'
    ensures NoForbidden(Sanitize(text)) && NoSpace(Sanitize(text))
    ensures NoDoubleDash(Sanitize(text))
  {
    var t := Trimmed(text);
    TrimmedSafe(text);
    CollapseRunsShape(t);
    CollapseRunsKeepsSafe(t);
    CollapseRunsNoSpace(t);
    CollapseRunsNoDoubleDash(t);
    var c := CollapseRuns(t);
    if c == [] {
      var u := "untitled";
      assert Sanitize(text) == u;
      forall i | 0 <= i < |u| ensures u[i] !in Forbidden && !IsSpace(u[i]) && u[i] != '-' {
      }
    }
  }

  /** A name that ends in ".md", adding it when missing. */
  function WithMd(name: string): string {
    if EndsWith(name, ".md") then name else name + ".md"
  }

  /** The text the name is derived from: the title when truthy, else the last non-empty
      segment of the URL's path, else the URL's host. */
  function NameSource(url: string, title: Option<string>): string {
    if Truthy(title) then title.value
    else
      var parsed := Urls.Urlparse(url);
      var parts := Urls.Segments(parsed.path);
      if parts != [] then parts[|parts| - 1] else parsed.netloc
  }

  /** `_generate_filename(url, title)`: the sanitised name with ".md" added when missing. */
  function GenerateFilename(url: string, title: Option<string>): string {
    WithMd(Sanitize(NameSource(url, title)))
  }

  /** The generated name is a single safe path component ending in ".md" with at least one
      character before the extension, and never a hidden file. */
  lemma GenerateFilenameSafe(url: string, title: Option<string>)
    ensures var r := GenerateFilename(url, title); EndsWith(r, ".md") && |r| > 3 && r[0] != '.'
    ensures NoForbidden(GenerateFilename(url, title)) && NoSpace(GenerateFilename(url, title))
  {
    SanitizeSafe(NameSource(url, title));
    WithMdSafe(Sanitize(NameSource(url, title)));
  }

  /** Adding ".md" to a safe name keeps it safe and makes it end in ".md"; a name that
      already does is kept. */
  lemma WithMdSafe(base: string)
    requires base != [] && base[0] != '.' && NoForbidden(base) && NoSpace(base)
    ensures var r := WithMd(base); EndsWith(r, ".md") && |r| > 3 && r[0] != '.' && NoForbidden(r) && NoSpace(r)
    ensures EndsWith(base, ".md") ==> WithMd(base) == base
  {
    if EndsWith(base, ".md") {
      assert |base| == 3 ==> base == ".md";
    } else {
      var r := base + ".md";
      assert ".md" == ['.', 'm', 'd'];
      assert r[|r| - 3..] == ".md";
      forall i | 0 <= i < |r| ensures r[i] !in Forbidden && !IsSpace(r[i]) {
        if i < |base| { assert r[i] == base[i]; }
      }
    }
  }

  /** A truthy title alone decides the name: the URL plays no part. */
  lemma TitleDecidesName(url1: string, url2: string, title: string)
    requires title != ""
    ensures GenerateFilename(url1, Some(title)) == GenerateFilename(url2, Some(title))
  {
  }

  /** Without a title, a URL whose path has segments is named after its last one. */
  lemma LastSegmentNamesPage(url: string)
    requires Urls.Segments(Urls.Urlparse(url).path) != []
    ensures var parts := Urls.Segments(Urls.Urlparse(url).path);
      GenerateFilename(url, None) == WithMd(Sanitize(parts[|parts| - 1]))
  {
  }

  /** Without a title, a URL whose path has no non-empty segment is named after its host. */
  lemma HostNamesPage(url: string)
    requires Urls.Segments(Urls.Urlparse(url).path) == []
    ensures GenerateFilename(url, None) == WithMd(Sanitize(Urls.Urlparse(url).netloc))
  {
  }

  /** Where pathlib's `suffix` starts: at the last dot, if that dot is neither the first nor
      the last character of the name. */
  function SuffixStart(name: string): (r: Option<nat>)
    ensures r.Some? ==> 0 < r.value < |name| - 1 && name[r.value] == '.'
  {
    match Urls.FindLast(name, '.')
    case Some(i) => if 0 < i < |name| - 1 then Some(i) else None
    case None => None
  }

  /** `Path(name).stem` */
  function Stem(name: string): string {
    match SuffixStart(name) case Some(i) => name[..i] case None => name
  }

  /** `Path(name).suffix` */
  function Suffix(name: string): string {
    match SuffixStart(name) case Some(i) => name[i..] case None => ""
  }

  lemma StemSuffix(name: string)
    ensures Stem(name) + Suffix(name) == name
  {
    match SuffixStart(name) {
      case Some(i) => assert name == name[..i] + name[i..];
      case None =>
    }
  }

  /** The k-th alternative name: `f"{base}_{counter}{ext}"`. */
  function Numbered(name: string, k: nat): string {
    Stem(name) + "_" + NatToString(k) + Suffix(name)
  }

  /** Different counters give different names. */
  lemma NumberedInjective(name: string, a: nat, b: nat)
    requires Numbered(name, a) == Numbered(name, b)
    ensures a == b
  {
    var p := Stem(name) + "_";
    var s := Suffix(name);
    var x := Numbered(name, a);
    var da, db := NatToString(a), NatToString(b);
    assert x == p + da + s && x == p + db + s;
    assert |da| == |db|;
    assert da == x[|p|..|p| + |da|];
    assert db == x[|p|..|p| + |db|];
    NatToStringInjective(a, b);
  }

  /** The alternatives tried before counter `k`. */
  ghost function Tried(name: string, k: nat): set<string> {
    set j: nat | 1 <= j < k :: Numbered(name, j)
  }

  lemma TriedStep(name: string, k: nat)
    requires k >= 1
    ensures Tried(name, k + 1) == Tried(name, k) + {Numbered(name, k)}
    ensures Numbered(name, k) !in Tried(name, k)
  {
    if Numbered(name, k) in Tried(name, k) {
      var j: nat :| 1 <= j < k && Numbered(name, j) == Numbered(name, k);
      NumberedInjective(name, j, k);
    }
  }

  /** Trying one more taken alternative leaves fewer untried names in the directory. */
  lemma TriedShrinks(existing: set<string>, name: string, k: nat)
    requires k >= 1 && Numbered(name, k) in existing
    ensures |existing - Tried(name, k + 1)| < |existing - Tried(name, k)|
  {
    TriedStep(name, k);
    assert existing - Tried(name, k + 1) == (existing - Tried(name, k)) - {Numbered(name, k)};
  }

  /** The smallest counter from `k` on whose alternative is free. */
  function FreeCounter(existing: set<string>, name: string, k: nat): (r: nat)
    requires k >= 1
    requires forall j :: 1 <= j < k ==> Numbered(name, j) in existing
    ensures r >= k && Numbered(name, r) !in existing
    ensures forall j :: 1 <= j < r ==> Numbered(name, j) in existing
    decreases |existing - Tried(name, k)|
  {
    if Numbered(name, k) !in existing then k
    else
      TriedShrinks(existing, name, k);
      assert forall j :: 1 <= j < k + 1 ==> Numbered(name, j) in existing by {
        forall j | 1 <= j < k + 1 ensures Numbered(name, j) in existing {
          if j < k { assert 1 <= j < k; }
        }
      }
      FreeCounter(existing, name, k + 1)
  }

  /** A counter whose alternative is free while all earlier ones are taken is the one
      `FreeCounter` finds. */
  lemma FirstFreeCounter(existing: set<string>, name: string, c: nat)
    requires c >= 1 && Numbered(name, c) !in existing
    requires forall j :: 1 <= j < c ==> Numbered(name, j) in existing
    ensures FreeCounter(existing, name, 1) == c
  {
  }

  /** `_ensure_unique_filename`: the name itself when free, otherwise the alternative with
      the smallest counter from 1 on that is free. */
  function UniqueName(existing: set<string>, name: string): (r: string)
    ensures r !in existing
    ensures name !in existing ==> r == name
    ensures name in existing ==> exists k: nat :: (k >= 1 && r == Numbered(name, k)
      && forall j :: 1 <= j < k ==> Numbered(name, j) in existing)
  {
    if name !in existing then name else Numbered(name, FreeCounter(existing, name, 1))
  }

  /** The loop of `_ensure_unique_filename` over the names present in the directory. */
  method EnsureUniqueFilename(existing: set<string>, name: string) returns (r: string)
    ensures r == UniqueName(existing, name)
  {
    if name !in existing {
      return name;
    }
    var candidate := name;
    var counter: nat := 1;
    while candidate in existing
      invariant counter >= 1
      invariant counter == 1 ==> candidate == name
      invariant counter > 1 ==> candidate == Numbered(name, counter - 1)
      invariant forall j :: 1 <= j < counter - 1 ==> Numbered(name, j) in existing
      decreases |existing - Tried(name, counter - 1)|, if counter == 1 then 1 else 0
    {
      if counter > 1 {
        TriedShrinks(existing, name, counter - 1);
      }
      candidate := Numbered(name, counter);
      counter := counter + 1;
    }
    FirstFreeCounter(existing, name, counter - 1);
    r := candidate;
  }
}
