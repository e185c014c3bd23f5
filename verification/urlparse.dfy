/**
 * The part of Python's `urllib.parse.urlparse` the adapter reads: a URL
 * string split into its scheme, network location and path.  The query
 * (after `?`) and the fragment (after `#`) are cut off the path; the
 * scheme is recognised only when the text before the first `:` starts with
 * an ASCII letter and consists of scheme characters, and it is lower-cased.
 * For the schemes that carry parameters (`http`, `https`, no scheme, ...)
 * the parameters after a `;` in the last path segment are cut off too.
 */
module UrlParse {

  datatype ParsedUrl = ParsedUrl(scheme: string, netloc: string, path: string)

  predicate IsAsciiLetter(ch: char) { 'a' <= ch <= 'z' || 'A' <= ch <= 'Z' }

  /** Letters, digits, `+`, `-` and `.`. */
  predicate IsSchemeChar(ch: char)
  {
    IsAsciiLetter(ch) || '0' <= ch <= '9' || ch == '+' || ch == '-' || ch == '.'
  }

  predicate IsSchemeText(s: string) { forall i :: 0 <= i < |s| ==> IsSchemeChar(s[i]) }

  /** A scheme as `urlparse` reports it: non-empty, starting with a letter, already lower-case. */
  predicate IsNormalScheme(s: string)
  {
    |s| > 0 && 'a' <= s[0] <= 'z' &&
    forall i :: 0 <= i < |s| ==> IsSchemeChar(s[i]) && !('A' <= s[i] <= 'Z')
  }

  function LowerChar(ch: char): char
  {
    if 'A' <= ch <= 'Z' then (ch as int - 'A' as int + 'a' as int) as char else ch
  }

  function AsciiLower(s: string): (r: string)
    ensures |r| == |s|
  {
    seq(|s|, i requires 0 <= i < |s| => LowerChar(s[i]))
  }

  /** The index of the first character of `s` in `stops`, or `|s|` when there is none. */
  function FindFirst(s: string, stops: set<char>): (k: nat)
    ensures k <= |s|
    ensures k < |s| ==> s[k] in stops
    ensures forall j :: 0 <= j < k ==> s[j] !in stops
    decreases |s|
  {
    if s == [] then 0
    else if s[0] in stops then 0
    else 1 + FindFirst(s[1..], stops)
  }

  /** The scheme and what follows its `:`, or no scheme and the whole text. */
  function SplitScheme(url: string): (string, string)
  {
    var colon := FindFirst(url, {':'});
    if 0 < colon < |url| && IsAsciiLetter(url[0]) && IsSchemeText(url[..colon])
    then (AsciiLower(url[..colon]), url[colon + 1..])
    else ("", url)
  }

  /** After `//`, the network location runs up to the first `/`, `?` or `#`. */
  function SplitNetloc(rest: string): (string, string)
  {
    if |rest| >= 2 && rest[..2] == "//" then
      var end := 2 + FindFirst(rest[2..], {'/', '?', '#'});
      (rest[2..end], rest[end..])
    else ("", rest)
  }

  /** The schemes for which `urlparse` separates `;` parameters from the path. */
  const UsesParams: set<string> :=
    {"", "ftp", "hdl", "prospero", "http", "imap", "https", "shttp", "rtsp", "rtspu",
     "sip", "sips", "mms", "sftp", "tel"}

  /** The index of the last `c` in `s`, or 0 when there is none. */
  function LastIndexOf(s: string, c: char): (k: nat)
    ensures k <= |s|
    ensures forall j :: k < j < |s| ==> s[j] != c
    decreases |s|
  {
    if s == [] then 0
    else if s[|s| - 1] == c then |s| - 1
    else LastIndexOf(s[..|s| - 1], c)
  }

  /** The path without the parameters that start at a `;` in its last segment. */
  function CutParams(path: string): (r: string)
    ensures r <= path
  {
    var start := LastIndexOf(path, '/');
    path[..start + FindFirst(path[start..], {';'})]
  }

  /** `urlparse(url)` restricted to scheme, netloc and path. */
  function SplitUrl(url: string): ParsedUrl
  {
    var (scheme, rest) := SplitScheme(url);
    var (netloc, tail) := SplitNetloc(rest);
    var path := tail[..FindFirst(tail, {'?', '#'})];
    ParsedUrl(scheme, netloc, if scheme in UsesParams then CutParams(path) else path)
  }

  /** `urlunparse` for a URL with a network location and neither query nor fragment. */
  function Unsplit(u: ParsedUrl): string
  {
    u.scheme + "://" + u.netloc + u.path
  }

  /** The parts that `Unsplit` can write so that `SplitUrl` reads them back. */
  predicate WellFormed(u: ParsedUrl)
  {
    && IsNormalScheme(u.scheme)
    && '/' !in u.netloc && '?' !in u.netloc && '#' !in u.netloc
    && (u.path == [] || u.path[0] == '/')
    && '?' !in u.path && '#' !in u.path && ';' !in u.path
  }

  lemma LowerNormalScheme(s: string)
    requires IsNormalScheme(s)
    ensures AsciiLower(s) == s
  {
  }

  /** Splitting the text of a well-formed URL gives back its parts. */
  lemma SplitUnsplit(u: ParsedUrl)
    requires WellFormed(u)
    ensures SplitUrl(Unsplit(u)) == u
  {
    var url := Unsplit(u);
    var rest := "//" + u.netloc + u.path;
    assert url == u.scheme + [':'] + rest;
    SchemeSplitsOff(u.scheme, rest);
    assert SplitScheme(url) == (u.scheme, rest);
    NetlocSplitsOff(u.netloc, u.path);
    assert SplitNetloc(rest) == (u.netloc, u.path);
    FindFirstIs(u.path, {'?', '#'}, |u.path|);
    assert u.path[..FindFirst(u.path, {'?', '#'})] == u.path;
    CutParamsWithoutSemicolon(u.path);
    assert (if u.scheme in UsesParams then CutParams(u.path) else u.path) == u.path;
  }

  lemma CutParamsWithoutSemicolon(path: string)
    requires ';' !in path
    ensures CutParams(path) == path
  {
    var start := LastIndexOf(path, '/');
    FindFirstIs(path[start..], {';'}, |path| - start);
  }

  lemma SchemeSplitsOff(scheme: string, rest: string)
    requires IsNormalScheme(scheme)
    ensures SplitScheme(scheme + [':'] + rest) == (scheme, rest)
  {
    var url := scheme + [':'] + rest;
    var n := |scheme|;
    assert url[..n] == scheme && url[n] == ':' && url[n + 1..] == rest;
    FindFirstIs(url, {':'}, n);
    LowerNormalScheme(scheme);
  }

  lemma NetlocSplitsOff(netloc: string, path: string)
    requires '/' !in netloc && '?' !in netloc && '#' !in netloc
    requires path == [] || path[0] == '/'
    ensures SplitNetloc("//" + netloc + path) == (netloc, path)
  {
    var rest := "//" + netloc + path;
    assert rest[..2] == "//" && rest[2..] == netloc + path;
    FindFirstIs(netloc + path, {'/', '?', '#'}, |netloc|);
    assert rest[2..2 + |netloc|] == netloc && rest[2 + |netloc|..] == path;
  }

  /** `FindFirst` is pinned down by its first stop character. */
  lemma {:induction false} FindFirstIs(s: string, stops: set<char>, k: nat)
    requires k <= |s|
    requires k < |s| ==> s[k] in stops
    requires forall j :: 0 <= j < k ==> s[j] !in stops
    ensures FindFirst(s, stops) == k
    decreases |s|
  {
    if s != [] && k > 0 {
      FindFirstIs(s[1..], stops, k - 1);
    }
  }
}
