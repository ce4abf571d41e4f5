/**
 `CLIPS_REGEX = /(twitch.tv\/.*\/clip)|(clips.twitch.tv)\/\w+/i` of
 src/index.js, as a search over the whole string (`test` with no `g` flag).

 The regex is case-insensitive without the `u` flag: a literal ASCII letter
 matches exactly its two ASCII cases, the unescaped `.` matches any character
 but a line terminator, and `\w` is `[A-Za-z0-9_]`. The atoms below encode
 exactly that.
 */
module ClipsRegex {
  import opened Strings

  datatype Atom =
    | Letter(c: char)   // an ASCII letter, matched in either case
    | Exact(c: char)    // any other literal character
    | Dot               // `.`
    | Word              // `\w`

  predicate IsLineTerminator(c: char)
  {
    c == '\n' || c == '\r' || c == '\U{2028}' || c == '\U{2029}'
  }

  predicate IsWordChar(c: char)
  {
    ('a' <= c <= 'z') || ('A' <= c <= 'Z') || ('0' <= c <= '9') || c == '_'
  }

  predicate AtomMatches(a: Atom, c: char)
  {
    match a
    case Letter(l) => LowerChar(c) == l
    case Exact(e) => c == e
    case Dot => !IsLineTerminator(c)
    case Word => IsWordChar(c)
  }

  /** The atoms of a regex fragment made of lower-case letters, `.` and
      other literal characters. */
  function Compile(t: string): (r: seq<Atom>)
    ensures |r| == |t|
  {
    seq(|t|, i requires 0 <= i < |t| =>
      if t[i] == '.' then Dot else if 'a' <= t[i] <= 'z' then Letter(t[i]) else Exact(t[i]))
  }

  /** The fragment `pat` matches `s` starting at position `i`. */
  predicate MatchesAt(s: string, i: int, pat: seq<Atom>)
  {
    0 <= i && i + |pat| <= |s| && forall k :: 0 <= k < |pat| ==> AtomMatches(pat[k], s[i + k])
  }

  predicate NoLineTerminator(s: string, lo: int, hi: int)
    requires 0 <= lo <= hi <= |s|
  {
    forall k :: lo <= k < hi ==> !IsLineTerminator(s[k])
  }

  function TwitchPrefix(): seq<Atom> { Compile("twitch.tv/") }
  function ClipSuffix(): seq<Atom> { Compile("/clip") }
  function ShortLink(): seq<Atom> { Compile("clips.twitch.tv/") + [Word] }

  /** First alternative: `twitch.tv\/.*\/clip`. */
  predicate ChannelClipForm(s: string)
  {
    exists i, j | 0 <= i <= |s| && 0 <= j <= |s| ::
      i + 10 <= j && MatchesAt(s, i, TwitchPrefix()) && MatchesAt(s, j, ClipSuffix())
      && NoLineTerminator(s, i + 10, j)
  }

  /** Second alternative: `(clips.twitch.tv)\/\w+` (one word character is
      enough for a search to succeed). */
  predicate ShortLinkForm(s: string)
  {
    exists i | 0 <= i <= |s| :: MatchesAt(s, i, ShortLink())
  }

  /** `CLIPS_REGEX.test(s)`. */
  predicate Test(s: string)
  {
    ChannelClipForm(s) || ShortLinkForm(s)
  }

  /** A match inside a piece is a match inside any string the piece sits in. */
  lemma {:induction false} TestInfix(s: string, lo: int, hi: int)
    requires 0 <= lo <= hi <= |s|
    requires Test(s[lo..hi])
    ensures Test(s)
  {
    var t := s[lo..hi];
    if ChannelClipForm(t) {
      var i, j :| 0 <= i <= |t| && 0 <= j <= |t| && i + 10 <= j
        && MatchesAt(t, i, TwitchPrefix()) && MatchesAt(t, j, ClipSuffix())
        && NoLineTerminator(t, i + 10, j);
      assert MatchesAt(s, lo + i, TwitchPrefix()) by {
        forall k | 0 <= k < 10 ensures AtomMatches(TwitchPrefix()[k], s[lo + i + k]) {
          assert s[lo + i + k] == t[i + k];
        }
      }
      assert MatchesAt(s, lo + j, ClipSuffix()) by {
        forall k | 0 <= k < 5 ensures AtomMatches(ClipSuffix()[k], s[lo + j + k]) {
          assert s[lo + j + k] == t[j + k];
        }
      }
      assert NoLineTerminator(s, lo + i + 10, lo + j) by {
        forall k | lo + i + 10 <= k < lo + j ensures !IsLineTerminator(s[k]) {
          assert s[k] == t[k - lo];
        }
      }
    } else {
      var i :| 0 <= i <= |t| && MatchesAt(t, i, ShortLink());
      assert MatchesAt(s, lo + i, ShortLink()) by {
        forall k | 0 <= k < 17 ensures AtomMatches(ShortLink()[k], s[lo + i + k]) {
          assert s[lo + i + k] == t[i + k];
        }
      }
    }
  }

  /** Any token made of a scheme, a host that reads `clips.twitch.tv` in any
      case, `/` and a word character matches. */
  lemma ShortLinkMatches(scheme: string, host: string, id: string)
    requires Lower(host) == "clips.twitch.tv"
    requires |id| > 0 && IsWordChar(id[0])
    ensures Test(scheme + (host + ("/" + id)))
  {
    var s := scheme + (host + ("/" + id));
    var i := |scheme|;
    assert forall k :: 0 <= k < 15 ==> s[i + k] == host[k];
    assert forall k :: 0 <= k < 15 ==> LowerChar(host[k]) == "clips.twitch.tv"[k];
    assert s[i + 15] == '/' && s[i + 16] == id[0];
    assert MatchesAt(s, i, ShortLink());
  }

  /** Any token holding `twitch.tv/`, a channel name without line breaks and
      then `/clip` matches, whatever surrounds them. */
  lemma ChannelClipMatches(before: string, user: string, after: string)
    requires forall c :: c in user ==> !IsLineTerminator(c)
    ensures Test(before + ("twitch.tv/" + (user + ("/clip" + after))))
  {
    var s := before + ("twitch.tv/" + (user + ("/clip" + after)));
    var i := |before|;
    var j := i + 10 + |user|;
    assert forall k :: 0 <= k < 10 ==> s[i + k] == "twitch.tv/"[k];
    assert forall k :: 0 <= k < 5 ==> s[j + k] == "/clip"[k];
    assert forall k :: i + 10 <= k < j ==> s[k] == user[k - i - 10];
    assert MatchesAt(s, i, TwitchPrefix());
    assert MatchesAt(s, j, ClipSuffix());
    assert NoLineTerminator(s, i + 10, j);
  }

  /** A string shorter than both alternatives never matches. */
  lemma ShortStringsDoNotMatch(s: string)
    requires |s| < 15
    ensures !Test(s)
  {
  }
}
