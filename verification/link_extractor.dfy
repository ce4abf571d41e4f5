/**
 `getUrlSlug` in both versions of the bot: pick the first space-separated
 token that looks like a clip link and take the clip id out of its path.
 */
module LinkExtractor {
  import opened JsValues
  import opened Strings
  import ClipsRegex
  import opened UrlPath

  /** What `getUrlSlug` (src/index.js) produces. `NoClipFound` and
      `MalformedClipUrl` both return `undefined` to the caller; `UrlThrows` is
      the `TypeError` of `new URL` escaping the message handler. */
  datatype Extraction =
    | Found(id: string)
    | NoClipFound
    | MalformedClipUrl
    | UrlThrows

  /** The value the caller receives when the function returns normally. */
  function ReturnedId(e: Extraction): (r: Option<string>)
    requires !e.UrlThrows?
    ensures r.Some? <==> e.Found?
  {
    if e.Found? then Some(e.id) else None
  }

  /** `_.filter(xs, p)`: the elements satisfying `p`, each as often as in
      `xs`, in their order in `xs` (see `FilterAppend`). */
  function Filter(xs: seq<string>, p: string -> bool): (r: seq<string>)
    ensures |r| <= |xs|
    ensures forall i :: 0 <= i < |r| ==> p(r[i]) && r[i] in xs
    ensures forall x :: x in xs && p(x) ==> x in r
    ensures |r| > 0 ==> exists k :: FirstSatisfying(xs, p, k) && r[0] == xs[k]
  {
    if |xs| == 0 then []
    else
      var rest := Filter(xs[1..], p);
      if p(xs[0]) then
        assert FirstSatisfying(xs, p, 0);
        [xs[0]] + rest
      else
        SkipFirst(xs, p, rest);
        rest
  }

  /** Each element satisfying `p` survives the filter as often as it occurs;
      no other element survives. */
  lemma {:induction false} FilterCounts(xs: seq<string>, p: string -> bool)
    ensures forall x :: multiset(Filter(xs, p))[x] == if p(x) then multiset(xs)[x] else 0
    decreases |xs|
  {
    if |xs| > 0 {
      FilterCounts(xs[1..], p);
      assert xs == [xs[0]] + xs[1..];
    }
  }

  /** Filtering keeps order: the survivors of a prefix come before those of
      the rest. */
  lemma {:induction false} FilterAppend(a: seq<string>, b: seq<string>, p: string -> bool)
    ensures Filter(a + b, p) == Filter(a, p) + Filter(b, p)
    decreases |a|
  {
    if |a| == 0 {
      assert a + b == b;
    } else {
      assert (a + b)[1..] == a[1..] + b;
      FilterAppend(a[1..], b, p);
    }
  }

  /** The first element satisfying `p` is unique. */
  lemma FirstSatisfyingUnique(xs: seq<string>, p: string -> bool, k: int)
    requires FirstSatisfying(xs, p, k)
    ensures forall j :: FirstSatisfying(xs, p, j) ==> j == k
  {
  }

  lemma SkipFirst(xs: seq<string>, p: string -> bool, rest: seq<string>)
    requires |xs| > 0 && !p(xs[0])
    requires |rest| > 0 ==> exists k :: FirstSatisfying(xs[1..], p, k) && rest[0] == xs[1..][k]
    ensures |rest| > 0 ==> exists k :: FirstSatisfying(xs, p, k) && rest[0] == xs[k]
  {
    if |rest| > 0 {
      var k :| FirstSatisfying(xs[1..], p, k) && rest[0] == xs[1..][k];
      assert FirstSatisfying(xs, p, k + 1);
    }
  }

  /** `xs[k]` is the first element of `xs` satisfying `p`. */
  predicate FirstSatisfying(xs: seq<string>, p: string -> bool, k: int)
  {
    0 <= k < |xs| && p(xs[k]) && forall j :: 0 <= j < k ==> !p(xs[j])
  }

  /** `id` is the last `/`-separated segment of `path`. */
  predicate IsLastSegment(path: string, id: string)
  {
    && '/' !in id
    && |id| <= |path|
    && path[|path| - |id|..] == id
    && (|id| < |path| ==> path[|path| - |id| - 1] == '/')
  }

  /** The tokens of a chat message, `_.split(message, ' ')`. */
  function Tokens(message: string): seq<string>
  {
    Split(message, ' ')
  }

  /** `getUrlSlug` of src/index.js:176-195: the first token the regex accepts
      decides; `new URL` may throw on it; otherwise its pathname's last
      `/`-segment is the id, and an empty one is a malformed link. */
  function GetUrlSlug(message: string): (r: Extraction)
    ensures r.NoClipFound? <==> forall t :: t in Tokens(message) ==> !ClipsRegex.Test(t)
    ensures forall k :: FirstSatisfying(Tokens(message), ClipsRegex.Test, k) ==>
      match WhatwgPathname(Tokens(message)[k])
      case None => r == UrlThrows
      case Some(path) =>
        r == if LastPiece(path, '/') == "" then MalformedClipUrl else Found(LastPiece(path, '/'))
    ensures r.Found? ==> r.id != "" && ' ' !in r.id && exists k :: SlugFrom(Tokens(message), k, r.id)
  {
    var urls := Filter(Tokens(message), ClipsRegex.Test);
    if |urls| < 1 then NoClipFound
    else
      var k :| FirstSatisfying(Tokens(message), ClipsRegex.Test, k) && urls[0] == Tokens(message)[k];
      FirstSatisfyingUnique(Tokens(message), ClipsRegex.Test, k);
      match WhatwgPathname(urls[0])
      case None => UrlThrows
      case Some(path) =>
        var id := LastPiece(path, '/');
        LastPieceIsSuffix(path, '/');
        if path == "" || id == "" then MalformedClipUrl
        else
          assert ' ' !in urls[0];
          assert ' ' !in id by {
            assert forall c :: c in id ==> c in path by {
              assert path[|path| - |id|..] == id;
            }
          }
          assert SlugFrom(Tokens(message), k, id);
          Found(id)
  }

  /** `id` is the last path segment of the first clip-link token, `tokens[k]`. */
  ghost predicate SlugFrom(tokens: seq<string>, k: int, id: string)
  {
    && FirstSatisfying(tokens, ClipsRegex.Test, k)
    && WhatwgPathname(tokens[k]).Some?
    && IsLastSegment(WhatwgPathname(tokens[k]).value, id)
  }

  /** `getUrlSlug` of index.js:200-219: tokens are picked by the substring
      `clips.twitch.tv/`, the path comes from urijs, and only its first `/` is
      removed. `None` is `undefined`. */
  function LegacyGetUrlSlug(message: string): (r: Option<string>)
    ensures (forall t :: t in Tokens(message) ==> !Contains(t, "clips.twitch.tv/")) ==> r.None?
    ensures forall k :: FirstSatisfying(Tokens(message), IsLegacyClipToken, k) ==>
      var id := ReplaceFirst(UriPath(Tokens(message)[k]), "/", "");
      r == if id == "" then None else Some(id)
    ensures r.Some? ==> r.value != "" && exists k :: LegacySlugFrom(Tokens(message), k, r.value)
  {
    var urls := Filter(Tokens(message), IsLegacyClipToken);
    if |urls| < 1 then None
    else
      var k :| FirstSatisfying(Tokens(message), IsLegacyClipToken, k) && urls[0] == Tokens(message)[k];
      FirstSatisfyingUnique(Tokens(message), IsLegacyClipToken, k);
      var path := UriPath(urls[0]);
      var id := ReplaceFirst(path, "/", "");
      if path == "" || id == "" then None
      else
        assert LegacySlugFrom(Tokens(message), k, id);
        Some(id)
  }

  predicate IsLegacyClipToken(t: string)
  {
    Contains(t, "clips.twitch.tv/")
  }

  /** `id` is the urijs path of the first token containing `clips.twitch.tv/`,
      with its first `/` (wherever it is) removed. */
  ghost predicate LegacySlugFrom(tokens: seq<string>, k: int, id: string)
  {
    && FirstSatisfying(tokens, IsLegacyClipToken, k)
    && var path := UriPath(tokens[k]);
       if Contains(path, "/") then
         exists i :: FirstOccurrence(path, "/", i) && id == path[..i] + path[i + 1..]
       else id == path
  }

  /** The short clip link `https://clips.twitch.tv/<id>`. */
  function ShortLinkUrl(id: string): string
  {
    "https://" + ("clips.twitch.tv" + ("/" + id))
  }

  /** Characters that end a host or a path segment, or start a scheme's end. */
  predicate IsPlainIdChar(c: char)
  {
    c !in {'/', '\\', '?', '#', ':', ' '}
  }

  /** The first clip link in a line decides the id: words before it that do
      not match are skipped, words after it are ignored, and the id is the
      link's last path segment with its case kept. */
  lemma {:induction false} FirstShortLinkWins(before: seq<string>, id: string, after: seq<string>)
    requires forall i :: 0 <= i < |before| ==> ' ' !in before[i] && !ClipsRegex.Test(before[i])
    requires NoneContains(after, ' ')
    requires |id| > 0 && ClipsRegex.IsWordChar(id[0])
    requires forall c :: c in id ==> IsPlainIdChar(c)
    ensures GetUrlSlug(Join(before + [ShortLinkUrl(id)] + after, ' ')) == Found(id)
  {
    var url := ShortLinkUrl(id);
    var toks := before + [url] + after;
    assert !IsPlainIdChar(' ');
    ShortLinkTokens(before, id, after);
    SplitJoin(toks, ' ');
    FirstMatchIsShortLink(before, id, after);
    ShortLinkPathname(id);
    LastSegmentOfRootPath(id);
  }

  /** Every short clip link whose id starts with a word character is
      recognised. */
  lemma ShortLinkIsClip(id: string)
    requires |id| > 0 && ClipsRegex.IsWordChar(id[0])
    ensures ClipsRegex.Test(ShortLinkUrl(id))
  {
    assert Lower("clips.twitch.tv") == "clips.twitch.tv";
    ClipsRegex.ShortLinkMatches("https://", "clips.twitch.tv", id);
  }

  /** A short clip link with a trailing `/` has an empty last segment: the
      link is recognised but no id comes out of it. */
  lemma TrailingSlashMalformed(id: string)
    requires |id| > 0 && ClipsRegex.IsWordChar(id[0])
    requires forall c :: c in id ==> IsPlainIdChar(c)
    ensures GetUrlSlug(ShortLinkUrl(id + "/")) == MalformedClipUrl
  {
    var slashed := id + "/";
    var url := ShortLinkUrl(slashed);
    assert slashed[0] == id[0];
    assert forall c :: c in slashed ==> c == '/' || c in id;
    assert ' ' !in slashed;
    ShortLinkTokens([], slashed, []);
    assert [] + [url] + [] == [url];
    SplitJoin([url], ' ');
    FirstMatchIsShortLink([], slashed, []);
    ShortLinkPathname(slashed);
    assert "/" + slashed == ("/" + id) + ['/'];
    LastPieceAfterSep("/" + id, '/');
  }

  lemma ShortLinkTokens(before: seq<string>, id: string, after: seq<string>)
    requires NoneContains(before, ' ') && NoneContains(after, ' ')
    requires ' ' !in id
    ensures NoneContains(before + [ShortLinkUrl(id)] + after, ' ')
  {
    var url := ShortLinkUrl(id);
    var toks := before + [url] + after;
    assert ' ' !in url by {
      forall c | c in url ensures c != ' ' {
        var rest := "clips.twitch.tv" + ("/" + id);
        if c in rest {
          assert c in "clips.twitch.tv" || c == '/' || c in id;
        }
      }
    }
    forall i | 0 <= i < |toks| ensures ' ' !in toks[i] {
      if i < |before| { assert toks[i] == before[i]; }
      else if i > |before| { assert toks[i] == after[i - |before| - 1]; }
    }
  }

  lemma FirstMatchIsShortLink(before: seq<string>, id: string, after: seq<string>)
    requires forall i :: 0 <= i < |before| ==> !ClipsRegex.Test(before[i])
    requires |id| > 0 && ClipsRegex.IsWordChar(id[0])
    ensures var f := Filter(before + [ShortLinkUrl(id)] + after, ClipsRegex.Test);
      |f| > 0 && f[0] == ShortLinkUrl(id)
  {
    var url := ShortLinkUrl(id);
    assert Lower("clips.twitch.tv") == "clips.twitch.tv";
    ClipsRegex.ShortLinkMatches("https://", "clips.twitch.tv", id);
    FilterSkips(before, [url] + after, ClipsRegex.Test);
    assert before + [url] + after == before + ([url] + after);
  }

  /** Leading elements that fail the test are dropped by the filter. */
  lemma {:induction false} FilterSkips(before: seq<string>, rest: seq<string>, p: string -> bool)
    requires forall i :: 0 <= i < |before| ==> !p(before[i])
    ensures Filter(before + rest, p) == Filter(rest, p)
    decreases |before|
  {
    if |before| > 0 {
      assert (before + rest)[1..] == before[1..] + rest;
      FilterSkips(before[1..], rest, p);
    } else {
      assert before + rest == rest;
    }
  }

  /** The clip link `https://clips.twitch.tv/<id>` has pathname `/<id>`. */
  lemma ShortLinkPathname(id: string)
    requires forall c :: c in id ==> c !in {'\\', '?', '#'}
    ensures WhatwgPathname(ShortLinkUrl(id)) == Some("/" + id)
  {
    var rest := "//" + ("clips.twitch.tv" + ("/" + id));
    assert "https://" == "https:" + "//";
    assert ShortLinkUrl(id) == "https:" + rest;
    HttpsScheme(rest);
    SpecialPathnameOfHost("clips.twitch.tv", id);
  }

  /** `https:` followed by anything is a special scheme ending at index 5. */
  lemma HttpsScheme(rest: string)
    ensures var t := "https:" + rest;
      && FirstOf(t, {':'}) == 5 && t[..5] == "https" && t[6..] == rest
      && ValidScheme("https") && IsSpecialScheme(Lower("https"))
  {
    var t := "https:" + rest;
    assert t == "https" + (":" + rest);
    FirstOfConcat("https", ":" + rest, {':'});
    assert Lower("https") == "https";
  }

  /** After `//host/`, a special scheme's pathname is `/` plus the rest. */
  lemma SpecialPathnameOfHost(host: string, id: string)
    requires |host| > 0 && forall c :: c in host ==> c !in {'/', '\\', '?', '#'}
    requires forall c :: c in id ==> c !in {'\\', '?', '#'}
    ensures SpecialPathname("//" + (host + ("/" + id))) == Some("/" + id)
  {
    var p := "/" + id;
    var afterSlashes := host + p;
    assert host[0] in host;
    SkipTwoSlashes(afterSlashes);
    FirstOfConcat(host, p, {'/', '\\', '?', '#'});
    assert afterSlashes[|host|..] == p;
    PlainRootPath(id);
  }

  lemma PlainRootPath(id: string)
    requires forall c :: c in id ==> c !in {'\\', '?', '#'}
    ensures BeforeQuery("/" + id) == "/" + id && Backslashes("/" + id) == "/" + id
  {
    var p := "/" + id;
    forall c | c in p ensures c == '/' || c in id {
      var i :| 0 <= i < |p| && p[i] == c;
      if i > 0 { assert p[i] == id[i - 1]; }
    }
    BeforeQueryOfPlainPath(p);
    BackslashesOfPlainPath(p);
  }

  /** The last segment of `/<id>` is `<id>`. */
  lemma LastSegmentOfRootPath(id: string)
    requires '/' !in id
    ensures LastPiece("/" + id, '/') == id
  {
    SplitCons("", '/', id);
    assert "" + ['/'] + id == "/" + id;
    SplitNoSep(id, '/');
  }

  /** The channel clip link `https://www.twitch.tv/<channel>/clip/<id>`. */
  function ChannelClipUrl(channel: string, id: string): string
  {
    "https://" + ("www.twitch.tv" + ("/" + (channel + ("/clip" + ("/" + id)))))
  }

  /** A channel clip link sent on its own yields its id: the regex accepts it
      through its first alternative, and the id is the pathname's last
      segment. */
  lemma ChannelClipFound(channel: string, id: string)
    requires forall c :: c in channel ==> IsPlainIdChar(c) && !ClipsRegex.IsLineTerminator(c)
    requires |id| > 0 && forall c :: c in id ==> IsPlainIdChar(c)
    ensures GetUrlSlug(ChannelClipUrl(channel, id)) == Found(id)
  {
    var url := ChannelClipUrl(channel, id);
    var tail := channel + ("/clip" + ("/" + id));
    assert forall c :: c in tail ==> c in channel || c in "/clip/" || c in id;
    assert ' ' !in url by {
      assert url == "https://" + ("www.twitch.tv" + ("/" + tail));
    }
    SplitNoSep(url, ' ');
    assert url == "https://www." + ("twitch.tv/" + (channel + ("/clip" + ("/" + id))));
    ClipsRegex.ChannelClipMatches("https://www.", channel, "/" + id);
    assert FirstSatisfying(Tokens(url), ClipsRegex.Test, 0);
    ChannelClipPath(channel, id);
  }

  lemma ChannelClipPath(channel: string, id: string)
    requires forall c :: c in channel ==> IsPlainIdChar(c)
    requires forall c :: c in id ==> IsPlainIdChar(c)
    ensures WhatwgPathname(ChannelClipUrl(channel, id)).Some?
    ensures LastPiece(WhatwgPathname(ChannelClipUrl(channel, id)).value, '/') == id
  {
    ChannelClipPathname(channel, id);
    ClipPathRegroup(channel, id);
    LastPieceAfter("/" + channel + "/clip", '/', id);
  }

  lemma ClipPathRegroup(channel: string, id: string)
    ensures "/" + (channel + ("/clip" + ("/" + id))) == ("/" + channel + "/clip") + ['/'] + id
  {
  }

  lemma ChannelClipPathname(channel: string, id: string)
    requires forall c :: c in channel ==> IsPlainIdChar(c)
    requires forall c :: c in id ==> IsPlainIdChar(c)
    ensures WhatwgPathname(ChannelClipUrl(channel, id)) == Some("/" + (channel + ("/clip" + ("/" + id))))
  {
    var tail := channel + ("/clip" + ("/" + id));
    var rest := "//" + ("www.twitch.tv" + ("/" + tail));
    assert ChannelClipUrl(channel, id) == "https:" + rest;
    assert forall c :: c in tail ==> c in channel || c in "/clip/" || c in id;
    HttpsScheme(rest);
    SpecialPathnameOfHost("www.twitch.tv", tail);
  }

  /** urijs reads `/<id>` as the path of a short clip link. */
  lemma ShortLinkUriPath(id: string)
    requires forall c :: c in id ==> IsPlainIdChar(c)
    ensures UriPath(ShortLinkUrl(id)) == "/" + id
  {
    assert ShortLinkUrl(id) == "https" + ("://" + ("clips.twitch.tv" + ("/" + id)));
    assert ValidScheme("https");
    UriPathOfAbsolute("https", "clips.twitch.tv", "/" + id);
  }

  /** In the older bot too, the first short clip link in a line decides the
      id: urijs gives `/<id>` and removing the first `/` leaves `<id>`. */
  lemma LegacyFirstShortLinkWins(before: seq<string>, id: string, after: seq<string>)
    requires forall i :: 0 <= i < |before| ==> ' ' !in before[i] && !IsLegacyClipToken(before[i])
    requires NoneContains(after, ' ')
    requires |id| > 0 && forall c :: c in id ==> IsPlainIdChar(c)
    ensures LegacyGetUrlSlug(Join(before + [ShortLinkUrl(id)] + after, ' ')) == Some(id)
  {
    var toks := before + [ShortLinkUrl(id)] + after;
    assert !IsPlainIdChar(' ');
    ShortLinkTokens(before, id, after);
    SplitJoin(toks, ' ');
    ShortLinkIsLegacyToken(id);
    assert toks[|before|] == ShortLinkUrl(id);
    assert FirstSatisfying(toks, IsLegacyClipToken, |before|);
    LegacyIdOfShortLink(id);
  }

  /** Every short clip link holds `clips.twitch.tv/`. */
  lemma ShortLinkIsLegacyToken(id: string)
    ensures IsLegacyClipToken(ShortLinkUrl(id))
  {
    var url := ShortLinkUrl(id);
    assert OccursAt(url, "clips.twitch.tv/", 8) by {
      assert url == "https://" + ("clips.twitch.tv/" + id);
    }
  }

  /** urijs gives `/<id>` for a short clip link, and removing the first `/`
      leaves `<id>`. */
  lemma LegacyIdOfShortLink(id: string)
    requires forall c :: c in id ==> IsPlainIdChar(c)
    ensures ReplaceFirst(UriPath(ShortLinkUrl(id)), "/", "") == id
  {
    ShortLinkUriPath(id);
    assert FirstOccurrence("" + "/" + id, "/", 0);
    ReplaceSplice("", "/", id, "");
    assert "" + "/" + id == "/" + id && "" + "" + id == id;
  }

  /** A short clip link is recognised wherever it sits in a line. */
  lemma ShortLinkInLine(before: string, id: string, after: string)
    requires |id| > 0 && ClipsRegex.IsWordChar(id[0])
    ensures ClipsRegex.Test(before + ShortLinkUrl(id) + after)
  {
    var s := before + ShortLinkUrl(id) + after;
    ShortLinkIsClip(id);
    assert s[|before|..|before| + |ShortLinkUrl(id)|] == ShortLinkUrl(id);
    ClipsRegex.TestInfix(s, |before|, |before| + |ShortLinkUrl(id)|);
  }

  /** The chat line `check this out https://clips.twitch.tv/AbCd1234 nice`
      yields the clip id `AbCd1234`. */
  lemma ScenarioShortLink()
    ensures GetUrlSlug(Join(["check", "this", "out", ShortLinkUrl("AbCd1234"), "nice"], ' '))
      == Found("AbCd1234")
  {
    ScenarioWords();
    ScenarioId();
    FirstShortLinkWins(["check", "this", "out"], "AbCd1234", ["nice"]);
    ScenarioLine();
  }

  /** The words around the link hold no space and match neither test. */
  lemma ScenarioWords()
    ensures var before := ["check", "this", "out"];
      forall i :: 0 <= i < |before| ==>
        ' ' !in before[i] && !ClipsRegex.Test(before[i]) && !IsLegacyClipToken(before[i])
    ensures NoneContains(["nice"], ' ')
  {
    ClipsRegex.ShortStringsDoNotMatch("check");
    ClipsRegex.ShortStringsDoNotMatch("this");
    ClipsRegex.ShortStringsDoNotMatch("out");
  }

  lemma ScenarioId()
    ensures |"AbCd1234"| > 0 && ClipsRegex.IsWordChar("AbCd1234"[0])
    ensures forall c :: c in "AbCd1234" ==> IsPlainIdChar(c)
  {
  }

  lemma ScenarioLine()
    ensures ["check", "this", "out"] + [ShortLinkUrl("AbCd1234")] + ["nice"]
      == ["check", "this", "out", ShortLinkUrl("AbCd1234"), "nice"]
  {
  }

  /** The older bot reads the same chat line the same way. */
  lemma LegacyScenarioShortLink()
    ensures LegacyGetUrlSlug(Join(["check", "this", "out", ShortLinkUrl("AbCd1234"), "nice"], ' '))
      == Some("AbCd1234")
  {
    ScenarioWords();
    ScenarioId();
    LegacyFirstShortLinkWins(["check", "this", "out"], "AbCd1234", ["nice"]);
    ScenarioLine();
  }
}
