/** POSIX paths as `pathlib` handles them: a path string is parsed into an anchor and a list
    of components, and `str()` renders them back. Repeated slashes and "." components are
    dropped on the way, so rendering normalises a path. */
module Paths {
  import opened Strings
  import opened Seqs

  /** The anchor `PurePosixPath` parses off the front of `p`: exactly two leading slashes
      are kept as they are, one or three and more become one, a relative path has none. */
  function Root(p: string): (r: string)
    ensures r == "" || r == "/" || r == "//"
    ensures r != "" <==> p != "" && p[0] == '/'
  {
    if |p| >= 2 && p[0] == '/' && p[1] == '/' && (|p| == 2 || p[2] != '/') then "//"
    else if |p| >= 1 && p[0] == '/' then "/"
    else ""
  }

  /** A piece of a path that `pathlib` keeps. */
  predicate IsComponent(x: string) {
    x != "" && x != "."
  }

  /** The components `PurePosixPath` parses out of `p`: the pieces between slashes, without
      the empty ones and without ".". */
  function Components(p: string): (r: seq<string>)
    ensures forall i :: 0 <= i < |r| ==> IsComponent(r[i]) && '/' !in r[i]
  {
    var pieces := Split(p, '/');
    var r := Filter(pieces, IsComponent);
    assert forall i :: 0 <= i < |r| ==> r[i] in pieces;
    r
  }

  /** `"/".join(parts)` */
  function JoinAll(parts: seq<string>): string {
    if parts == [] then "" else Join(parts, '/')
  }

  /** `str(PurePosixPath(p))`: the anchor followed by the components joined with slashes,
      or "." when that is empty. */
  function PathStr(p: string): (r: string)
    ensures r != ""
  {
    var s := Root(p) + JoinAll(Components(p));
    if s == "" then "." else s
  }

  /** The path string `PurePosixPath(p) / name` is parsed from (`os.path.join(p, name)`): an
      absolute name replaces the path, otherwise the two are joined with one slash. */
  function JoinPath(p: string, name: string): string {
    if name != "" && name[0] == '/' then name
    else if p == "" || p[|p| - 1] == '/' then p + name
    else p + "/" + name
  }

  /** What a directory contributes in front of a file name: its anchor and components, with
      a slash after the last component, and nothing for the current directory. */
  function DirPrefix(dir: string): string {
    var cs := Components(dir);
    if cs == [] then Root(dir) else Root(dir) + JoinAll(cs) + "/"
  }

  /** Joined components do not start with a slash, and end with one only when empty. */
  lemma JoinAllEnds(cs: seq<string>)
    requires forall i :: 0 <= i < |cs| ==> IsComponent(cs[i]) && '/' !in cs[i]
    ensures var j := JoinAll(cs); (j == "" <==> cs == []) && (j != "" ==> j[0] != '/' && j[|j| - 1] != '/')
  {
    if cs != [] {
      var j := JoinAll(cs);
      if |cs| > 1 {
        JoinSnoc(cs[..|cs| - 1], cs[|cs| - 1], '/');
        assert cs[..|cs| - 1] + [cs[|cs| - 1]] == cs;
        assert j == Join(cs[..|cs| - 1], '/') + ['/'] + cs[|cs| - 1];
      }
      assert j[..|cs[0]|] == cs[0] && j[|j| - 1] == cs[|cs| - 1][|cs[|cs| - 1]| - 1];
    }
  }

  /** How the shortest paths split, and that none of their pieces is a component. */
  lemma ShortPieces()
    ensures Split("", '/') == [""] && Split("/", '/') == ["", ""] && Split(".", '/') == ["."]
    ensures Filter([""], IsComponent) == [] && Filter(["", ""], IsComponent) == [] && Filter(["."], IsComponent) == []
  {
    SplitAround("", "", '/');
    assert "" + ['/'] + "" == "/";
    SplitWithoutSep(".", '/');
    FilterAppend([""], [""], IsComponent);
    assert [""] + [""] == ["", ""];
  }

  /** Leading slashes only set the anchor: the components are those of the rest. */
  lemma ComponentsAfterRoot(r: string, j: string)
    requires r == "" || r == "/" || r == "//"
    ensures Components(r + j) == Components(j)
  {
    ShortPieces();
    if r != "" {
      var r' := r[..|r| - 1];
      assert r' == "" || r' == "/";
      assert r + j == r' + ['/'] + j;
      SplitAround(r', j, '/');
      FilterAppend(Split(r', '/'), Split(j, '/'), IsComponent);
      assert Filter(Split(r', '/'), IsComponent) == [];
    } else {
      assert r + j == j;
    }
  }

  /** Rendering a path and parsing it again gives back the same anchor and components, so
      rendering is idempotent. */
  lemma ParseRendered(p: string)
    ensures Root(PathStr(p)) == Root(p) && Components(PathStr(p)) == Components(p)
    ensures PathStr(PathStr(p)) == PathStr(p)
  {
    var r, cs := Root(p), Components(p);
    var j := JoinAll(cs);
    JoinAllEnds(cs);
    if r + j == "" {
      assert PathStr(p) == ".";
      ShortPieces();
    } else {
      assert PathStr(p) == r + j;
      ComponentsAfterRoot(r, j);
      if cs != [] {
        SplitJoin(cs, '/');
        FilterKeepsAll(cs, IsComponent);
      }
      assert (r + j)[..|r|] == r;
    }
  }

  /** Adding a single component after a slash adds it to the components. */
  lemma ComponentsOfJoin(a: string, name: string)
    requires IsComponent(name) && '/' !in name
    ensures Components(a + "/" + name) == Components(a) + [name]
  {
    assert a + "/" + name == a + ['/'] + name;
    SplitAround(a, name, '/');
    SplitWithoutSep(name, '/');
    FilterAppend(Split(a, '/'), [name], IsComponent);
  }

  /** Text after a path that does not end in a slash leaves its anchor alone. */
  lemma RootOfLonger(p: string, q: string)
    requires p != "" && p[|p| - 1] != '/'
    ensures Root(p + q) == Root(p)
  {
    var s := p + q;
    assert s[0] == p[0];
    assert |p| >= 2 ==> s[1] == p[1];
    assert |p| >= 3 ==> s[2] == p[2];
  }

  /** A name that does not start with a slash, after an anchor, keeps that anchor. */
  lemma RootBeforeName(r: string, name: string)
    requires r == "/" || r == "//"
    requires name != "" && name[0] != '/'
    ensures Root(r + name) == r
  {
    var s := r + name;
    assert s[|r|] == name[0];
  }

  /** A path whose anchor and components are known renders as them. */
  lemma Rendered(raw: string, r: string, cs: seq<string>)
    requires Root(raw) == r && Components(raw) == cs && cs != []
    ensures PathStr(raw) == r + JoinAll(cs)
  {
    JoinAllEnds(cs);
  }

  /** A name right after an anchor: the anchor and the name. */
  lemma NameUnderRoot(r: string, name: string)
    requires r == "/" || r == "//"
    requires IsComponent(name) && '/' !in name
    ensures PathStr(r + name) == r + name
  {
    SplitWithoutSep(name, '/');
    FilterKeepsAll([name], IsComponent);
    ComponentsAfterRoot(r, name);
    RootBeforeName(r, name);
    Rendered(r + name, r, [name]);
  }

  /** A name in the current directory: the bare name. */
  lemma NameUnderDot(name: string)
    requires IsComponent(name) && '/' !in name
    ensures PathStr("." + "/" + name) == name
  {
    ShortPieces();
    ComponentsOfJoin(".", name);
    Rendered("." + "/" + name, "", [name]);
  }

  /** A name in a directory with components: the directory, a slash and the name. */
  lemma NameUnderDir(d: string, name: string)
    requires IsComponent(name) && '/' !in name
    requires Components(d) != [] && d == Root(d) + JoinAll(Components(d))
    ensures PathStr(d + "/" + name) == d + "/" + name
  {
    hide Split, Filter, Components, PathStr, Root;
    var r, cs := Root(d), Components(d);
    JoinAllEnds(cs);
    assert d[|d| - 1] == JoinAll(cs)[|JoinAll(cs)| - 1];
    ComponentsOfJoin(d, name);
    RootOfLonger(d, "/" + name);
    assert d + ("/" + name) == d + "/" + name;
    JoinSnoc(cs, name, '/');
    Rendered(d + "/" + name, r, cs + [name]);
  }

  /** A file name that is a single component lands directly in the directory: the path is
      the directory's prefix followed by the name. */
  lemma JoinedName(dir: string, name: string)
    requires IsComponent(name) && '/' !in name
    ensures PathStr(JoinPath(PathStr(dir), name)) == DirPrefix(dir) + name
  {
    var d := PathStr(dir);
    var r, cs := Root(dir), Components(dir);
    ParseRendered(dir);
    JoinAllEnds(cs);
    assert d == if r + JoinAll(cs) == "" then "." else r + JoinAll(cs);
    hide PathStr, Components, Root;
    if cs == [] && r != "" {
      assert JoinPath(d, name) == r + name;
      NameUnderRoot(r, name);
    } else if cs == [] {
      assert JoinPath(d, name) == "." + "/" + name;
      NameUnderDot(name);
    } else {
      var j := JoinAll(cs);
      assert d[|d| - 1] == j[|j| - 1];
      assert JoinPath(d, name) == d + "/" + name;
      NameUnderDir(d, name);
    }
  }

  /** The current directory, written "." or left empty, has no components. */
  lemma CurrentDirectory()
    ensures Components(".") == [] && Components("") == []
  {
    ShortPieces();
  }

  /** "./output" has the one component "output". */
  lemma DotOutputComponents()
    ensures Components("./output") == ["output"]
  {
    CurrentDirectory();
    ComponentsOfJoin(".", "output");
    assert "." + "/" + "output" == "./output";
  }

  /** The prefix of "./output", the default output directory. */
  lemma DotOutputPrefix()
    ensures DirPrefix("./output") == "output/"
  {
    DotOutputComponents();
    assert Join(["output"], '/') == "output";
  }

  /** "out/" has the one component "out". */
  lemma SlashedComponents()
    ensures Components("out/") == ["out"]
  {
    ShortPieces();
    SplitAround("out", "", '/');
    SplitWithoutSep("out", '/');
    FilterAppend(["out"], [""], IsComponent);
    assert "out" + ['/'] + "" == "out/";
  }

  /** The prefix of "out/", a directory written with a trailing slash. */
  lemma SlashedPrefix()
    ensures DirPrefix("out/") == "out/"
  {
    SlashedComponents();
    assert Join(["out"], '/') == "out";
  }

  /** The prefix of the empty directory. */
  lemma EmptyPrefix()
    ensures DirPrefix("") == ""
  {
    ShortPieces();
  }

  /** The three directories a configuration commonly names: "./output" loses its "./", a
      trailing slash is not doubled, and the empty directory is the current one. */
  lemma CommonDirectories(name: string)
    requires IsComponent(name) && '/' !in name
    ensures PathStr(JoinPath(PathStr("./output"), name)) == "output/" + name
    ensures PathStr(JoinPath(PathStr("out/"), name)) == "out/" + name
    ensures PathStr(JoinPath(PathStr(""), name)) == name
  {
    DotOutputPrefix();
    SlashedPrefix();
    EmptyPrefix();
    hide *;
    JoinedName("./output", name);
    JoinedName("out/", name);
    JoinedName("", name);
  }
}
