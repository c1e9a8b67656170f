/** Python's `urllib.parse.urlparse`, the parts of it the crawler reads: scheme, host
    (`netloc`) and path. */
module Urls {
  import opened Wrappers
  import opened Strings
  import Seqs

  /** `urlparse(url)`; absent parts are empty strings, as in Python. */
  datatype ParsedUrl = ParsedUrl(scheme: string, netloc: string, path: string,
                                 params: string, query: string, fragment: string)

  /** The pieces of a URL before the empty defaults are filled in: `None` marks a delimiter
      that does not occur. `scheme` is as written (not yet lower-cased). */
  datatype Pieces = Pieces(scheme: Option<string>, netloc: Option<string>, path: string,
                           params: Option<string>, query: Option<string>, fragment: Option<string>)

  /** The first position of `c` in `s` at or after `from`. */
  function FindFrom(s: string, c: char, from: nat): (r: Option<nat>)
    ensures r.Some? ==> from <= r.value < |s| && s[r.value] == c
    ensures r.Some? ==> forall j :: from <= j < r.value ==> s[j] != c
    ensures r.None? ==> forall j :: from <= j < |s| ==> s[j] != c
    decreases |s| - from
  {
    if from >= |s| then None else if s[from] == c then Some(from) else FindFrom(s, c, from + 1)
  }

  /** The last position of `c` in `s`. */
  function FindLast(s: string, c: char): (r: Option<nat>)
    ensures r.Some? ==> r.value < |s| && s[r.value] == c
    ensures r.Some? ==> forall j :: r.value < j < |s| ==> s[j] != c
    ensures r.None? ==> c !in s
  {
    if s == [] then None
    else if s[|s| - 1] == c then Some(|s| - 1)
    else
      var r := FindLast(s[..|s| - 1], c);
      assert s == s[..|s| - 1] + [s[|s| - 1]];
      r
  }

  /** A delimiter and the text after it, or nothing when the piece is absent. */
  function Part(p: Option<string>, delimiter: string): string {
    if p.Some? then delimiter + p.value else ""
  }

  /** `s.split(c, 1)` when `c in s`, else `s` alone. */
  function SplitFirst(s: string, c: char): (r: (string, Option<string>))
    ensures c !in r.0
    ensures s == r.0 + Part(r.1, [c])
  {
    match FindFrom(s, c, 0)
    case None => (s, None)
    case Some(i) =>
      assert forall j :: 0 <= j < i ==> s[..i][j] == s[j];
      assert s == s[..i] + [c] + s[i + 1..];
      (s[..i], Some(s[i + 1..]))
  }

  /** `_WHATWG_C0_CONTROL_OR_SPACE`: the characters up to and including the space. */
  predicate IsC0OrSpace(c: char) {
    c as int <= 32
  }

  /** What `urlsplit` does to its input first: strip leading C0 controls and spaces, then
      delete every tab, carriage return and line feed. */
  function Clean(url: string): (r: string)
    ensures '\t' !in r && '\r' !in r && '\n' !in r
  {
    RemoveUnsafe(LStripWhere(url))
  }

  function LStripWhere(s: string): (r: string)
    ensures r == [] || !IsC0OrSpace(r[0])
  {
    if s != [] && IsC0OrSpace(s[0]) then LStripWhere(s[1..]) else s
  }

  function RemoveUnsafe(s: string): (r: string)
    ensures '\t' !in r && '\r' !in r && '\n' !in r
  {
    if s == [] then []
    else (if s[0] in {'\t', '\r', '\n'} then [] else [s[0]]) + RemoveUnsafe(s[1..])
  }

  predicate IsAsciiLetter(c: char) {
    'a' <= c <= 'z' || 'A' <= c <= 'Z'
  }

  /** `scheme_chars`: ASCII letters, digits, `+`, `-` and `.`. */
  predicate IsSchemeChar(c: char) {
    IsAsciiLetter(c) || IsDigit(c) || c == '+' || c == '-' || c == '.'
  }

  /** The scheme split: the text before the first `:` is a scheme when it is not empty,
      starts with an ASCII letter and holds only scheme characters. */
  function SplitScheme(url: string): (r: (Option<string>, string))
    ensures r.0.Some? ==> ':' !in r.0.value && r.0.value != []
    ensures url == Part(r.0, "") + (if r.0.Some? then ":" else "") + r.1
  {
    match FindFrom(url, ':', 0)
    case Some(i) =>
      if i > 0 && IsAsciiLetter(url[0]) && (forall j :: 0 <= j < i ==> IsSchemeChar(url[j])) then
        assert forall j :: 0 <= j < i ==> url[..i][j] == url[j];
        assert url == url[..i] + ":" + url[i + 1..];
        (Some(url[..i]), url[i + 1..])
      else (None, url)
    case None => (None, url)
  }

  /** `_splitnetloc(url, 2)`: the host runs from after `//` to the first `/`, `?` or `#`. */
  function NetlocEnd(s: string): (d: nat)
    requires |s| >= 2
    ensures 2 <= d <= |s|
    ensures forall j :: 2 <= j < d ==> s[j] != '/' && s[j] != '?' && s[j] != '#'
    ensures d < |s| ==> s[d] in {'/', '?', '#'}
  {
    Min3(FindFrom(s, '/', 2), FindFrom(s, '?', 2), FindFrom(s, '#', 2), |s|)
  }

  function Min3(a: Option<nat>, b: Option<nat>, c: Option<nat>, n: nat): (m: nat)
    ensures m <= n
    ensures a.Some? ==> m <= a.value
    ensures b.Some? ==> m <= b.value
    ensures c.Some? ==> m <= c.value
    ensures m == n || (a.Some? && m == a.value) || (b.Some? && m == b.value) || (c.Some? && m == c.value)
  {
    var m1 := if a.Some? && a.value < n then a.value else n;
    var m2 := if b.Some? && b.value < m1 then b.value else m1;
    if c.Some? && c.value < m2 then c.value else m2
  }

  /** The schemes for which `urlparse` splits `;params` off the path (`uses_params`). */
  const UsesParams: set<string> := {"", "ftp", "hdl", "prospero", "http", "imap", "https", "shttp",
    "rtsp", "rtsps", "rtspu", "sip", "sips", "mms", "sftp", "tel"}

  /** Whether `urlparse` looks for parameters under this (raw) scheme. */
  predicate SplitsParams(scheme: Option<string>) {
    LowerAscii(scheme.GetOr("")) in UsesParams
  }

  /** `_splitparams`: the `;` that starts the parameters is the first one after the last `/`
      (or the first one at all when there is no `/`). */
  function SplitParams(s: string): (r: (string, Option<string>))
    ensures s == r.0 + Part(r.1, ";")
  {
    var start := match FindLast(s, '/') case Some(k) => k case None => 0;
    match FindFrom(s, ';', start)
    case None => (s, None)
    case Some(i) =>
      assert s == s[..i] + ";" + s[i + 1..];
      (s[..i], Some(s[i + 1..]))
  }

  /** The host part: after a leading `//`, up to the first `/`, `?` or `#`. */
  function SplitNetloc(rest: string): (r: (Option<string>, string))
    ensures r.0.Some? ==> '/' !in r.0.value && '?' !in r.0.value && '#' !in r.0.value
    ensures rest == Part(r.0, "//") + r.1
  {
    if |rest| >= 2 && rest[..2] == "//" then
      var d := NetlocEnd(rest);
      assert forall j :: 0 <= j < d - 2 ==> rest[2..d][j] == rest[2 + j];
      assert rest == "//" + rest[2..d] + rest[d..];
      (Some(rest[2..d]), rest[d..])
    else (None, rest)
  }

  /** The path with its parameters, query and fragment taken off. */
  function SplitTail(s: string, withParams: bool): (r: (string, Option<string>, Option<string>, Option<string>))
    ensures '?' !in r.0 && '#' !in r.0
    ensures s == r.0 + Part(r.1, ";") + Part(r.2, "?") + Part(r.3, "#")
  {
    var (beforeFragment, fragment) := SplitFirst(s, '#');
    var (beforeQuery, query) := SplitFirst(beforeFragment, '?');
    var (path, params) := if withParams && ';' in beforeQuery then SplitParams(beforeQuery) else (beforeQuery, None);
    assert beforeQuery == path + Part(params, ";");
    (path, params, query, fragment)
  }

  /** `urlparse(url)` before the empty defaults are filled in. */
  function Split(url: string): (p: Pieces)
    ensures p.netloc.Some? ==> '/' !in p.netloc.value && '?' !in p.netloc.value && '#' !in p.netloc.value
    ensures '?' !in p.path && '#' !in p.path
  {
    var (scheme, rest) := SplitScheme(Clean(url));
    var (netloc, afterNetloc) := SplitNetloc(rest);
    var (path, params, query, fragment) := SplitTail(afterNetloc, SplitsParams(scheme));
    Pieces(scheme, netloc, path, params, query, fragment)
  }

  /** `urlparse(url)`: the scheme lower-cased, absent parts empty. */
  function Urlparse(url: string): (u: ParsedUrl)
    ensures '/' !in u.netloc && '?' !in u.path && '#' !in u.path
  {
    var p := Split(url);
    ParsedUrl(LowerAscii(p.scheme.GetOr("")), p.netloc.GetOr(""), p.path, p.params.GetOr(""),
              p.query.GetOr(""), p.fragment.GetOr(""))
  }

  /** `[p for p in path.split('/') if p]`: the non-empty path segments, in order. */
  function Segments(path: string): (r: seq<string>)
    ensures forall i :: 0 <= i < |r| ==> r[i] != "" && '/' !in r[i]
  {
    var parts := Strings.Split(path, '/');
    var r := Seqs.Filter(parts, (p: string) => p != "");
    assert forall i :: 0 <= i < |r| ==> r[i] in r && r[i] in parts;
    r
  }
}
