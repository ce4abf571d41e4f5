/**
 The path component of a link, as the two URL libraries the bot uses compute
 it: `new URL(token).pathname` (the WHATWG parser, src/index.js) and
 `URI(token).path()` (urijs, index.js). Both are simplified: see README.
 */
module UrlPath {
  import opened JsValues
  import opened Strings

  lemma SkipTwoSlashes(x: string)
    requires |x| > 0 && x[0] !in {'/', '\\'}
    ensures FirstNotSlash("//" + x) == 2 && ("//" + x)[2..] == x
  {
    var s := "//" + x;
    assert s[1..] == "/" + x;
    assert s[1..][1..] == x;
    assert FirstNotSlash(x) == 0;
  }

  lemma BeforeQueryOfPlainPath(p: string)
    requires '?' !in p && '#' !in p
    ensures BeforeQuery(p) == p
  {
    assert FirstOf(p, {'?', '#'}) == |p|;
  }

  lemma BackslashesOfPlainPath(p: string)
    requires '\\' !in p
    ensures Backslashes(p) == p
  {
    var b := Backslashes(p);
    forall k | 0 <= k < |p| ensures b[k] == p[k] {
      assert p[k] in p;
    }
  }

  predicate IsAsciiAlpha(c: char)
  {
    ('a' <= c <= 'z') || ('A' <= c <= 'Z')
  }

  /** A URL scheme: a letter followed by letters, digits, `+`, `-` or `.`. */
  predicate ValidScheme(s: string)
  {
    && |s| > 0
    && IsAsciiAlpha(s[0])
    && forall k :: 1 <= k < |s| ==>
         IsAsciiAlpha(s[k]) || ('0' <= s[k] <= '9') || s[k] in {'+', '-', '.'}
  }

  predicate IsSpecialScheme(lowerScheme: string)
  {
    lowerScheme in {"http", "https", "ws", "wss", "ftp"}
  }

  /** The prefix of `s` before its query or fragment. */
  function BeforeQuery(s: string): (r: string)
    ensures StartsWith(s, r) && '?' !in r && '#' !in r
    ensures forall c :: c in r ==> c in s
  {
    s[..FirstOf(s, {'?', '#'})]
  }

  /** `new URL(token).pathname`; `None` when the constructor throws (a token
      with no scheme, or a special scheme with an empty host). */
  function WhatwgPathname(t: string): (r: Option<string>)
    ensures r.Some? ==> ValidScheme(t[..FirstOf(t, {':'})]) && FirstOf(t, {':'}) < |t|
    ensures r.Some? && IsSpecialScheme(Lower(t[..FirstOf(t, {':'})])) ==>
      |r.value| > 0 && r.value[0] == '/'
    ensures r.Some? ==> forall c :: c in r.value ==> c == '/' || c in t
  {
    var colon := FirstOf(t, {':'});
    if colon == |t| || !ValidScheme(t[..colon]) then None
    else if IsSpecialScheme(Lower(t[..colon])) then SpecialPathname(t[colon + 1..])
    else Some(OtherPathname(t[colon + 1..]))
  }

  /** The pathname after a special scheme (`http`, `https`, ...): any run of
      slashes or backslashes is skipped, the host runs to the next `/`, `\`,
      `?` or `#` and must not be empty, and an empty path reads as `/`. */
  function SpecialPathname(rest: string): (r: Option<string>)
    ensures r.Some? ==> |r.value| > 0 && r.value[0] == '/'
    ensures r.Some? ==> forall c :: c in r.value ==> c == '/' || c in rest
  {
    var afterSlashes := rest[FirstNotSlash(rest)..];
    var hostEnd := FirstOf(afterSlashes, {'/', '\\', '?', '#'});
    if hostEnd == 0 then None
    else
      var path := BeforeQuery(afterSlashes[hostEnd..]);
      Some(if path == "" then "/" else Backslashes(path))
  }

  /** The pathname after any other scheme: after a `//` authority, or the
      whole opaque rest, cut before the query or fragment. */
  function OtherPathname(rest: string): (r: string)
    ensures forall c :: c in r ==> c in rest
  {
    if StartsWith(rest, "//") then
      var auth := rest[2..];
      BeforeQuery(auth[FirstOf(auth, {'/', '?', '#'})..])
    else BeforeQuery(rest)
  }

  function FirstNotSlash(s: string): (r: nat)
    ensures r <= |s|
    ensures forall k :: 0 <= k < r ==> s[k] in {'/', '\\'}
  {
    if |s| > 0 && s[0] in {'/', '\\'} then 1 + FirstNotSlash(s[1..]) else 0
  }

  /** Special schemes read `\` in a path as `/`. */
  function Backslashes(s: string): (r: string)
    ensures |r| == |s|
    ensures |s| > 0 && s[0] in {'/', '\\'} ==> r[0] == '/'
    ensures forall c :: c in r ==> c == '/' || c in s
  {
    seq(|s|, k requires 0 <= k < |s| => if s[k] == '\\' then '/' else s[k])
  }

  /** urijs's `URI(token).path()`: query and fragment are cut off first; a
      `//host` or `scheme://host` prefix is an authority and the path starts at
      the next `/` (or is `/`); a `scheme:` without `//` leaves the rest as an
      opaque path; anything else is a relative path, taken whole. */
  function UriPath(t: string): (r: string)
    ensures '?' !in r && '#' !in r
  {
    var s := BeforeQuery(t[..FirstOf(t, {'#'})]);
    if StartsWith(s, "//") then AuthorityPath(s[2..])
    else
      var colon := FirstOf(s, {':'});
      if colon == |s| then s
      else if colon > 0 && !ValidScheme(s[..colon]) then s
      else if StartsWith(s[colon + 1..], "//") then AuthorityPath(s[colon + 3..])
      else s[colon + 1..]
  }

  /** urijs reads `<scheme>://<host><path>` as `<path>` when the path starts
      with `/` and carries no query or fragment. */
  lemma UriPathOfAbsolute(scheme: string, host: string, path: string)
    requires ValidScheme(scheme)
    requires forall c :: c in host ==> c !in {'/', '?', '#'}
    requires |path| > 0 && path[0] == '/' && '?' !in path && '#' !in path
    ensures UriPath(scheme + ("://" + (host + path))) == path
  {
    var after := host + path;
    var t := scheme + ("://" + after);
    SchemeColon(scheme, after);
    assert '#' !in t && '?' !in t by {
      assert '#' !in after && '?' !in after;
    }
    PlainUrl(t);
    AuthorityOfHost(host, path);
  }

  /** Where the scheme ends and the authority starts. */
  lemma SchemeColon(scheme: string, after: string)
    requires ValidScheme(scheme)
    ensures var t := scheme + ("://" + after);
      && !StartsWith(t, "//") && FirstOf(t, {':'}) == |scheme| && t[..|scheme|] == scheme
      && StartsWith(t[|scheme| + 1..], "//") && t[|scheme| + 3..] == after
      && ':' !in scheme && '?' !in scheme && '#' !in scheme
  {
    var t := scheme + ("://" + after);
    SchemeChars(scheme);
    FirstOfConcat(scheme, "://" + after, {':'});
    assert t[0] == scheme[0];
    assert t[|scheme| + 1..] == "//" + after;
  }

  lemma AuthorityOfHost(host: string, path: string)
    requires forall c :: c in host ==> c != '/'
    requires |path| > 0 && path[0] == '/'
    ensures AuthorityPath(host + path) == path
  {
    FirstOfConcat(host, path, {'/'});
    assert (host + path)[|host|..] == path;
  }

  lemma SchemeChars(scheme: string)
    requires ValidScheme(scheme)
    ensures ':' !in scheme && '?' !in scheme && '#' !in scheme && '/' !in scheme
  {
    forall c | c in scheme ensures c !in {':', '?', '#', '/'} {
      var k :| 0 <= k < |scheme| && scheme[k] == c;
    }
  }

  /** A link with no query and no fragment is left whole by the cuts. */
  lemma PlainUrl(t: string)
    requires '#' !in t && '?' !in t
    ensures BeforeQuery(t[..FirstOf(t, {'#'})]) == t
  {
    assert FirstOf(t, {'#'}) == |t| && t[..|t|] == t;
    BeforeQueryOfPlainPath(t);
  }

  /** The path after an authority: from its first `/`, or `/` if none. */
  function AuthorityPath(a: string): (r: string)
    ensures |r| > 0 && r[0] == '/'
    ensures forall c :: c in r ==> c == '/' || c in a
  {
    var p := FirstOf(a, {'/'});
    if p == |a| then "/" else a[p..]
  }
}
