/** `urllib.parse.urlsplit(url).path`, the only part of a URL the media
    resolver reads: a leading `scheme:` and a `//netloc` are skipped, and the
    path stops at the fragment (`#`) and at the query (`?`). */
module UrlSplit {
  import opened Text

  predicate IsAsciiLetter(c: char)
  {
    'a' <= c <= 'z' || 'A' <= c <= 'Z'
  }

  predicate IsSchemeChar(c: char)
  {
    IsAsciiLetter(c) || '0' <= c <= '9' || c == '+' || c == '-' || c == '.'
  }

  /** The URL without its scheme: the text before the first ':' is a scheme
      when it is non-empty, starts with a letter and holds only scheme
      characters. */
  function AfterScheme(url: string): (r: string)
    ensures |r| <= |url| && r == url[|url| - |r|..]
  {
    var i := Find(url, ':');
    if 0 < i < |url| && IsAsciiLetter(url[0]) && forall k :: 0 <= k < i ==> IsSchemeChar(url[k])
    then url[i + 1..]
    else url
  }

  /** Where the network location ends: the first '/', '?' or '#', or the end. */
  function NetlocEnd(s: string): (r: nat)
    ensures r <= |s|
    ensures r < |s| ==> s[r] == '/' || s[r] == '?' || s[r] == '#'
    ensures forall i :: 0 <= i < r ==> s[i] != '/' && s[i] != '?' && s[i] != '#'
  {
    if |s| == 0 then 0
    else if s[0] == '/' || s[0] == '?' || s[0] == '#' then 0
    else 1 + NetlocEnd(s[1..])
  }

  /** The URL after its scheme starts with "//", so it names a host. */
  predicate HasNetloc(url: string)
  {
    var rest := AfterScheme(url);
    |rest| >= 2 && rest[..2] == "//"
  }

  /** `urlsplit(url).path`. */
  function PathOf(url: string): (r: string)
    ensures '?' !in r && '#' !in r
  {
    var rest := AfterScheme(url);
    var afterNetloc := if HasNetloc(url) then rest[2 + NetlocEnd(rest[2..])..] else rest;
    var noFragment := afterNetloc[..Find(afterNetloc, '#')];
    noFragment[..Find(noFragment, '?')]
  }

  /** Behind a host the path is empty or starts at the root, so pathlib
      reads it as an absolute path. */
  lemma NetlocPathIsRooted(url: string)
    requires HasNetloc(url)
    ensures var r := PathOf(url); r == "" || r[0] == '/'
  {
    var rest := AfterScheme(url);
    var tail := rest[2..];
    var afterNetloc := tail[NetlocEnd(tail)..];
    assert afterNetloc == rest[2 + NetlocEnd(tail)..];
    if |afterNetloc| > 0 && afterNetloc[0] != '/' {
      assert afterNetloc[0] == '?' || afterNetloc[0] == '#';
      var noFragment := afterNetloc[..Find(afterNetloc, '#')];
      assert |noFragment| == 0 || noFragment[0] == '?';
    }
  }
}
