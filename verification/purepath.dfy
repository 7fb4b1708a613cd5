/** The part of Python's `pathlib.PurePosixPath` the media resolver uses:
    parsing a string into a path, `name`, `suffix`, `stem`, `parent`, the `/`
    operator and `with_suffix`, with the semantics of Python 3.12. */
module PurePath {
  import opened Results
  import opened Text

  /** A path as pathlib keeps it: whether it starts at the root, and its
      components, none of them empty, "." or containing a slash. */
  datatype Path = Path(absolute: bool, parts: seq<string>)

  predicate IsPart(p: string)
  {
    p != "" && p != "." && '/' !in p
  }

  predicate Normal(p: Path)
  {
    forall k :: 0 <= k < |p.parts| ==> IsPart(p.parts[k])
  }

  /** Drops the empty and "." pieces of a slash-split string. */
  function Components(pieces: seq<string>): (r: seq<string>)
    requires forall k :: 0 <= k < |pieces| ==> '/' !in pieces[k]
    ensures forall k :: 0 <= k < |r| ==> IsPart(r[k])
  {
    if |pieces| == 0 then []
    else (if pieces[0] == "" || pieces[0] == "." then [] else [pieces[0]]) + Components(pieces[1..])
  }

  /** `PurePosixPath(s)`: repeated slashes and "." components disappear, a
      trailing slash is dropped, and the empty string means ".". */
  function Parse(s: string): (p: Path)
    ensures p.absolute <==> |s| > 0 && s[0] == '/'
    ensures Normal(p)
  {
    Path(|s| > 0 && s[0] == '/', Components(Split(s, '/')))
  }

  /** `str(path)`. */
  function ToString(p: Path): string
  {
    if p.absolute then "/" + Join(p.parts, "/")
    else if |p.parts| == 0 then "."
    else Join(p.parts, "/")
  }

  lemma {:induction false} ComponentsOfParts(pieces: seq<string>)
    requires forall k :: 0 <= k < |pieces| ==> pieces[k] != "" && pieces[k] != "." && '/' !in pieces[k]
    ensures Components(pieces) == pieces
  {
    if |pieces| > 0 {
      ComponentsOfParts(pieces[1..]);
      assert pieces == [pieces[0]] + pieces[1..];
    }
  }

  lemma ParseJoined(parts: seq<string>)
    requires |parts| > 0
    requires forall k :: 0 <= k < |parts| ==> IsPart(parts[k])
    ensures Split(Join(parts, "/"), '/') == parts
    ensures Components(Split(Join(parts, "/"), '/')) == parts
  {
    assert "/" == ['/'];
    SplitJoin(parts, '/');
    ComponentsOfParts(parts);
  }

  /** Printing a normal path and parsing the text gives back the same path. */
  lemma ParseToString(p: Path)
    requires Normal(p)
    ensures Parse(ToString(p)) == p
  {
    var s := ToString(p);
    if p.absolute {
      var j := Join(p.parts, "/");
      assert s == "/" + j;
      assert Split(s, '/') == [""] + Split(j, '/') by {
        assert Find(s, '/') == 0;
        assert s[1..] == j;
      }
      assert Components(Split(s, '/')) == Components(Split(j, '/'));
      if |p.parts| > 0 {
        ParseJoined(p.parts);
      }
    } else if |p.parts| > 0 {
      ParseJoined(p.parts);
      assert s[0] == p.parts[0][0] != '/';
    } else {
      assert Find(s, '/') == 1;
      assert Split(s, '/') == ["."];
      assert Components(["."]) == [] + Components([]);
    }
  }

  /** `path.name`: the last component, or "" for the root and for ".". */
  function Name(p: Path): string
  {
    if |p.parts| == 0 then "" else p.parts[|p.parts| - 1]
  }

  /** `suffix` of a file name: from its last dot on, unless that dot is the
      first or the last character (dot files and names ending in "."). */
  function Suffix(name: string): (r: string)
    ensures r == "" || (r[0] == '.' && 2 <= |r| < |name| && r == name[|name| - |r|..])
    ensures r != "" ==> '.' !in r[1..]
    ensures r != "" <==> exists i :: 0 < i < |name| - 1 && name[i] == '.' && LastDot(name, i)
  {
    var i := RFind(name, '.');
    if 0 < i < |name| - 1 then name[i..] else ""
  }

  /** No dot follows position `i` of the name. */
  predicate LastDot(name: string, i: int)
    requires 0 <= i < |name|
  {
    forall j :: i < j < |name| ==> name[j] != '.'
  }

  /** `stem` of a file name: the name without its suffix. */
  function Stem(name: string): (r: string)
    ensures r + Suffix(name) == name
    ensures name != "" ==> r != ""
  {
    var i := RFind(name, '.');
    if 0 < i < |name| - 1 then name[..i] else name
  }

  /** A name with a one-dot suffix added has that suffix and the name as stem. */
  lemma AddedSuffix(name: string, suffix: string)
    requires name != ""
    requires |suffix| >= 2 && suffix[0] == '.' && '.' !in suffix[1..]
    ensures Suffix(name + suffix) == suffix
    ensures Stem(name + suffix) == name
  {
    var s := name + suffix;
    var i := RFind(s, '.');
    assert s[|name|] == '.';
    assert i == |name|;
  }

  /** `path.parent`: the path without its last component; the root and "."
      are their own parents. */
  function Parent(p: Path): (r: Path)
    ensures r.absolute == p.absolute
    ensures |p.parts| > 0 ==> r.parts + [Name(p)] == p.parts
    ensures |p.parts| == 0 ==> r == p
  {
    if |p.parts| == 0 then p else Path(p.absolute, p.parts[..|p.parts| - 1])
  }

  /** `a / b`: an absolute `b` discards `a`; otherwise the components are
      appended. */
  function JoinPath(a: Path, b: Path): (r: Path)
    ensures b.absolute ==> r == b
    ensures !b.absolute ==> r.absolute == a.absolute && r.parts == a.parts + b.parts
  {
    if b.absolute then b else Path(a.absolute, a.parts + b.parts)
  }

  /** `a / s` for a string `s`, which pathlib parses first. */
  function JoinStr(a: Path, s: string): Path
  {
    JoinPath(a, Parse(s))
  }

  /** Joining a single component puts it directly inside the directory. */
  lemma JoinPart(dir: Path, n: string)
    requires IsPart(n)
    ensures JoinStr(dir, n) == Path(dir.absolute, dir.parts + [n])
  {
    assert Find(n, '/') == |n|;
    assert Split(n, '/') == [n];
    assert Components([n]) == [n] + Components([]);
    assert n[0] != '/';
  }

  /** Joining a file name that is empty leaves the directory itself; joining
      a component never does. */
  lemma JoinName(dir: Path, n: string)
    requires n == "" || IsPart(n)
    ensures JoinStr(dir, n) == dir <==> n == ""
  {
    if n == "" {
      assert Split(n, '/') == [""];
      assert Components([""]) == [] + Components([]);
    } else {
      JoinPart(dir, n);
      assert |JoinStr(dir, n).parts| == |dir.parts| + 1;
    }
  }

  /** The suffix arguments `with_suffix` accepts. */
  predicate ValidSuffix(s: string)
  {
    s == "" || (s[0] == '.' && s != "." && '/' !in s)
  }

  /** `path.with_suffix(suffix)`: replaces or adds the suffix of the last
      component; `None` stands for the ValueError raised on an invalid
      suffix or on a path whose name is empty. */
  function WithSuffix(p: Path, suffix: string): (r: Option<Path>)
    ensures r.None? <==> !ValidSuffix(suffix) || Name(p) == ""
    ensures r.Some? ==> r.value.absolute == p.absolute && Parent(r.value) == Parent(p)
    ensures r.Some? ==> Name(r.value) == Stem(Name(p)) + suffix
  {
    var name := Name(p);
    if !ValidSuffix(suffix) || name == "" then None
    else
      var oldSuffix := Suffix(name);
      var renamed := if oldSuffix == "" then name + suffix else name[..|name| - |oldSuffix|] + suffix;
      Some(Path(p.absolute, p.parts[..|p.parts| - 1] + [renamed]))
  }

  /** A component whose suffix is replaced by ".gif" is still a component,
      with suffix ".gif" and the same stem. */
  lemma GifPart(name: string)
    requires IsPart(name)
    ensures IsPart(Stem(name) + ".gif")
    ensures Suffix(Stem(name) + ".gif") == ".gif" && Stem(Stem(name) + ".gif") == Stem(name)
  {
    var stem := Stem(name);
    AddedSuffix(stem, ".gif");
    assert stem == name[..|stem|];
    assert forall i :: 0 <= i < |stem| ==> stem[i] == name[i];
  }

  /** `with_suffix(".gif")` on a path with a name yields a normal path in the
      same directory whose suffix is ".gif" and whose stem is unchanged. */
  lemma WithGifSuffix(p: Path)
    requires Normal(p) && Name(p) != ""
    ensures WithSuffix(p, ".gif").Some?
    ensures var q := WithSuffix(p, ".gif").value;
      && Normal(q)
      && q.parts == p.parts[..|p.parts| - 1] + [Stem(Name(p)) + ".gif"]
      && Suffix(Name(q)) == ".gif"
      && Stem(Name(q)) == Stem(Name(p))
  {
    var name := Name(p);
    GifPart(name);
    var oldSuffix := Suffix(name);
    assert Stem(name) + oldSuffix == name;
    assert name[..|name| - |oldSuffix|] == Stem(name);
    var q := WithSuffix(p, ".gif").value;
    assert q.parts == p.parts[..|p.parts| - 1] + [Stem(name) + ".gif"];
    assert forall k :: 0 <= k < |p.parts| - 1 ==> q.parts[k] == p.parts[k];
  }
}
