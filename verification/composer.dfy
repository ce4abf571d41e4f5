/**
 The Discord message the bot composes for a clip: `buildMessage` (plain text
 or a rich embed) and the no-token fallback `postUsingMessageInfo`, in both
 versions of the bot.

 Lookup results from the Twitch API may be `undefined` (no such record) or an
 error object standing in for the record, so every field the templates read
 is an `Option<string>` and renders through `Render`; a template that reads a
 field of `undefined` throws, which is the `None` result of the builders.
 */
module Composer {
  import opened JsValues
  import opened Strings

  /** The clip record from the `clips` endpoint (title already trimmed in the
      newer bot). */
  datatype ClipInfo = ClipInfo(
    title: string,
    url: string,
    createdAt: string,
    broadcasterId: string,
    creatorId: string,
    gameId: string)

  /** A `users` record, or what the template sees of one. */
  datatype UserInfo = UserInfo(displayName: Option<string>, login: Option<string>, profileImageUrl: Option<string>)

  /** A `games` record, or what the template sees of one. */
  datatype GameInfo = GameInfo(name: Option<string>, boxArtUrl: Option<string>)

  datatype Author = Author(name: Option<string>, url: string, iconUrl: Option<string>)

  datatype Field = Field(name: string, value: string, inline: bool)

  datatype Embed = Embed(
    title: string,
    url: string,
    color: int,
    timestamp: string,
    thumbnail: Option<string>,
    author: Author,
    fields: seq<Field>)

  /** A plain-text message, or `{content, embeds}`. */
  datatype Content = Text(text: string) | Rich(content: string, embeds: seq<Embed>)

  /** The embed accent colour. */
  const EmbedColor := 9442302

  const TwitchHome := "https://www.twitch.tv/"

  // ---------------------------------------------------------------------------
  // plain text

  /** ` playing __<name>__`, the game clause of the plain message. */
  function PlayingClause(g: GameInfo): string
  {
    " playing __" + Render(g.name) + "__"
  }

  /** The plain message: title in italics, creator and broadcaster in bold,
      the game clause when there is a game, and the clip URL on its own line. */
  function PlainText(clip: ClipInfo, user: UserInfo, broadcaster: UserInfo, game: Option<GameInfo>): (r: string)
    ensures r == "*" + clip.title + "*\n**" + Render(user.displayName) + "**"
      + " created a clip of **" + Render(broadcaster.displayName) + "**"
      + (if game.Some? then " playing __" + Render(game.value.name) + "__" else "")
      + "\n" + clip.url
    ensures StartsWith(r, "*" + clip.title + "*\n**" + Render(user.displayName) + "**")
    ensures |r| >= |clip.url| + 1 && r[|r| - |clip.url| - 1..] == "\n" + clip.url
  {
    var head := "*" + clip.title + "*\n**" + Render(user.displayName) + "**";
    var mid := head + " created a clip of **" + Render(broadcaster.displayName) + "**"
      + (if game.Some? then PlayingClause(game.value) else "");
    var r := mid + "\n" + clip.url;
    assert r[..|head|] == head;
    assert r[|r| - |clip.url| - 1..] == "\n" + clip.url;
    r
  }

  /** With a game, the plain message is the game-less one with the game clause
      inserted just before the line holding the URL. */
  lemma PlainGameClause(clip: ClipInfo, user: UserInfo, broadcaster: UserInfo, g: GameInfo)
    ensures var without := PlainText(clip, user, broadcaster, None);
      var cut := |without| - |clip.url| - 1;
      PlainText(clip, user, broadcaster, Some(g)) == without[..cut] + PlayingClause(g) + without[cut..]
  {
    var head := "*" + clip.title + "*\n**" + Render(user.displayName) + "**"
      + " created a clip of **" + Render(broadcaster.displayName) + "**";
    var tail := "\n" + clip.url;
    assert PlainText(clip, user, broadcaster, None) == head + tail;
    assert PlainText(clip, user, broadcaster, Some(g)) == head + PlayingClause(g) + tail;
    assert (head + tail)[..|head|] == head;
    assert (head + tail)[|head|..] == tail;
  }

  // ---------------------------------------------------------------------------
  // rich embed

  /** The box art URL at 80x80: `{height}` then `{width}` replaced, first
      occurrence of each. */
  function Thumbnail(boxArtUrl: string): (r: string)
    ensures !Contains(boxArtUrl, "{height}") && !Contains(boxArtUrl, "{width}") ==> r == boxArtUrl
  {
    ReplaceFirst(ReplaceFirst(boxArtUrl, "{height}", "80"), "{width}", "80")
  }

  /** A Twitch box-art URL `<p>{width}x{height}<s>` becomes `<p>80x80<s>`. */
  lemma BoxArtAt80(p: string, s: string)
    requires '{' !in p && '{' !in s
    ensures Thumbnail(p + "{width}x{height}" + s) == p + "80x80" + s
  {
    var w, x, h, e := "{width}", "x", "{height}", "80";
    assert "{width}x{height}" == w + x + h;
    assert "80x80" == e + x + e;
    Regroup(p, w, x, h, s);
    HeightFirstAt(p, s);
    ReplaceSplice(p + w + x, h, s, e);
    Regroup(p, w, x, e, s);
    WidthFirstAt(p, x + e + s);
    ReplaceSplice(p, w, x + e + s, e);
    Regroup(p, e, x, e, s);
  }

  /** The two ways of cutting `a b c d s` this proof needs. */
  lemma Regroup(a: string, b: string, c: string, d: string, s: string)
    ensures a + (b + c + d) + s == (a + b + c) + d + s
    ensures (a + b + c) + d + s == a + b + (c + d + s)
  {
  }

  lemma HeightFirstAt(p: string, s: string)
    requires '{' !in p
    ensures FirstOccurrence((p + "{width}" + "x") + "{height}" + s, "{height}", |p| + 8)
  {
    var u := (p + "{width}" + "x") + "{height}" + s;
    var h := |p| + 8;
    assert u[h..h + 8] == "{height}";
    forall j | 0 <= j < h ensures !OccursAt(u, "{height}", j) {
      if j < |p| {
        assert u[j] == p[j];
        MismatchAt(u, "{height}", j, 0);
      } else if j == |p| {
        assert u[j + 1] == 'w';
        MismatchAt(u, "{height}", j, 1);
      } else {
        assert u[j] == "{width}x"[j - |p|];
        MismatchAt(u, "{height}", j, 0);
      }
    }
  }

  lemma WidthFirstAt(p: string, s: string)
    requires '{' !in p
    ensures FirstOccurrence(p + "{width}" + s, "{width}", |p|)
  {
    var v := p + "{width}" + s;
    assert v[|p|..|p| + 7] == "{width}";
    forall j | 0 <= j < |p| ensures !OccursAt(v, "{width}", j) {
      assert v[j] == p[j];
      MismatchAt(v, "{width}", j, 0);
    }
  }

  /** The author block: the creator's name, channel link and avatar. */
  function AuthorOf(user: UserInfo): Author
  {
    Author(user.displayName, TwitchHome + Render(user.login), user.profileImageUrl)
  }

  /** The `Channel` field: a Markdown link to the broadcaster's channel. */
  function ChannelField(broadcaster: UserInfo): Field
  {
    Field("Channel", "[" + Render(broadcaster.displayName) + "](" + TwitchHome + Render(broadcaster.login) + ")", true)
  }

  /** The `Game` field: the game's name, or empty when it has none. */
  function GameField(g: GameInfo): Field
  {
    Field("Game", OrDefault(g.name, ""), true)
  }

  /** The single embed. With a game it carries the box-art thumbnail and a
      second field; without, neither. `None` when the box art URL is
      `undefined` (reading `.replace` of it throws). */
  function RichEmbed(clip: ClipInfo, user: UserInfo, broadcaster: UserInfo, game: Option<GameInfo>): (r: Option<Embed>)
    ensures r.None? <==> game.Some? && game.value.boxArtUrl.None?
    ensures r.Some? ==> r.value.color == EmbedColor && r.value.title == clip.title && r.value.url == clip.url
    ensures r.Some? ==> r.value.timestamp == clip.createdAt
    ensures r.Some? ==>
      r.value.author == Author(user.displayName, TwitchHome + Render(user.login), user.profileImageUrl)
    ensures r.Some? ==> |r.value.fields| >= 1 && r.value.fields[0] == ChannelField(broadcaster)
    ensures r.Some? ==> (r.value.thumbnail.Some? <==> game.Some?)
    ensures r.Some? ==> (|r.value.fields| == 2 <==> game.Some?) && |r.value.fields| <= 2
    ensures r.Some? && game.Some? ==>
      && r.value.thumbnail == Some(Thumbnail(game.value.boxArtUrl.value))
      && r.value.fields[1] == Field("Game", OrDefault(game.value.name, ""), true)
  {
    var base := Embed(clip.title, clip.url, EmbedColor, clip.createdAt, None, AuthorOf(user), [ChannelField(broadcaster)]);
    match game
    case None => Some(base)
    case Some(g) =>
      if g.boxArtUrl.None? then None
      else Some(base.(thumbnail := Some(Thumbnail(g.boxArtUrl.value)), fields := base.fields + [GameField(g)]))
  }

  /** The embed with a game is the game-less embed plus the thumbnail and the
      `Game` field; nothing else differs. */
  lemma RichGameAdds(clip: ClipInfo, user: UserInfo, broadcaster: UserInfo, g: GameInfo, box: string)
    requires g.boxArtUrl == Some(box)
    ensures var without := RichEmbed(clip, user, broadcaster, None).value;
      RichEmbed(clip, user, broadcaster, Some(g))
        == Some(without.(thumbnail := Some(Thumbnail(box)), fields := without.fields + [GameField(g)]))
  {
  }

  // ---------------------------------------------------------------------------
  // buildMessage

  /** `buildMessage` of src/index.js:315-382. `user` and `broadcaster` are
      `None` when the lookup gave `undefined`; the result is `None` when the
      template throws. */
  function BuildMessage(richEmbed: bool, user: Option<UserInfo>, broadcaster: Option<UserInfo>,
                        game: Option<GameInfo>, clip: ClipInfo): (r: Option<Content>)
    ensures r.None? <==> user.None? || broadcaster.None? || (richEmbed && game.Some? && game.value.boxArtUrl.None?)
    ensures r.Some? && !richEmbed ==> r.value.Text?
    ensures r.Some? && richEmbed ==> r.value.Rich? && r.value.content == "" && |r.value.embeds| == 1
    ensures r.Some? && !richEmbed ==> r.value == Text(PlainText(clip, user.value, broadcaster.value, game))
    ensures r.Some? && richEmbed ==>
      r.value == Rich("", [RichEmbed(clip, user.value, broadcaster.value, game).value])
  {
    if user.None? || broadcaster.None? then None
    else if !richEmbed then Some(Text(PlainText(clip, user.value, broadcaster.value, game)))
    else
      match RichEmbed(clip, user.value, broadcaster.value, game)
      case None => None
      case Some(e) => Some(Rich("", [e]))
  }

  /** `buildMessage` of index.js:340-385: the game is always read, so a clip
      with no game (`undefined`) makes it throw in both modes. */
  function LegacyBuildMessage(richEmbed: bool, user: Option<UserInfo>, broadcaster: Option<UserInfo>,
                              game: Option<GameInfo>, clip: ClipInfo): (r: Option<Content>)
    ensures r.None? <==>
      game.None? || user.None? || broadcaster.None? || (richEmbed && game.value.boxArtUrl.None?)
    ensures r.Some? ==> r == BuildMessage(richEmbed, user, broadcaster, game, clip)
  {
    if game.None? then None
    else BuildMessage(richEmbed, user, broadcaster, game, clip)
  }

  /** A clip without a game is never rendered by the older builder, while the
      newer one renders it. */
  lemma LegacyDropsGamelessClips(richEmbed: bool, user: UserInfo, broadcaster: UserInfo, clip: ClipInfo)
    ensures LegacyBuildMessage(richEmbed, Some(user), Some(broadcaster), None, clip).None?
    ensures BuildMessage(richEmbed, Some(user), Some(broadcaster), None, clip).Some?
  {
  }

  // ---------------------------------------------------------------------------
  // no-token fallback

  /** `postUsingMessageInfo` of src/index.js:170-174: the poster's display
      name and the short clip URL built from the id. */
  function FallbackText(displayName: Option<string>, clipId: Option<string>): (r: string)
    ensures r == "**" + Render(displayName) + "** posted a clip: " + "https://clips.twitch.tv/" + Render(clipId)
    ensures StartsWith(r, "**" + Render(displayName) + "** posted a clip: ")
    ensures |r| >= |Render(clipId)| && r[|r| - |Render(clipId)|..] == Render(clipId)
  {
    var head := "**" + Render(displayName) + "** posted a clip: ";
    var r := head + "https://clips.twitch.tv/" + Render(clipId);
    assert r[..|head|] == head;
    assert r[|r| - |Render(clipId)|..] == Render(clipId);
    r
  }

  /** `postUsingMessageInfo` of index.js:195-198: the whole chat line follows
      the poster's name. */
  function LegacyFallbackText(displayName: Option<string>, message: string): (r: string)
    ensures r == "**" + Render(displayName) + "** posted a clip: " + message
    ensures StartsWith(r, "**" + Render(displayName) + "** posted a clip: ")
    ensures |r| >= |message| && r[|r| - |message|..] == message
  {
    var head := "**" + Render(displayName) + "** posted a clip: ";
    var r := head + message;
    assert r[..|head|] == head;
    r
  }

  // ---------------------------------------------------------------------------
  // the documented examples

  /** A fully enriched clip in plain mode: the headline, then the link on
      its own line. */
  lemma ScenarioPlainMessage()
    ensures BuildMessage(false, Some(UserInfo(Some("Bob"), Some("bob"), None)),
                         Some(UserInfo(Some("StreamerX"), Some("streamerx"), None)),
                         Some(GameInfo(Some("GameY"), None)),
                         ClipInfo("My Clip", "https://clips.twitch.tv/AbCd1234", "", "", "", ""))
      == Some(Text("*My Clip*\n**Bob** created a clip of **StreamerX** playing __GameY__"
                   + "\n" + "https://clips.twitch.tv/AbCd1234"))
  {
    HeadlineBob();
    HeadlineStreamer();
    HeadlineGame();
  }

  lemma HeadlineBob()
    ensures "*" + "My Clip" + "*\n**" + "Bob" + "**" == "*My Clip*\n**Bob**"
  {
  }

  lemma HeadlineStreamer()
    ensures "*My Clip*\n**Bob**" + " created a clip of **" + "StreamerX" + "**"
      == "*My Clip*\n**Bob** created a clip of **StreamerX**"
  {
  }

  lemma HeadlineGame()
    ensures "*My Clip*\n**Bob** created a clip of **StreamerX**" + (" playing __" + "GameY" + "__")
      == "*My Clip*\n**Bob** created a clip of **StreamerX** playing __GameY__"
  {
  }

  /** The older bot's fallback repeats the whole chat line after the poster's
      name. */
  lemma ScenarioLegacyFallback()
    ensures LegacyFallbackText(Some("Alice"), "check this out https://clips.twitch.tv/AbCd1234 nice")
      == "**Alice** posted a clip: " + "check this out https://clips.twitch.tv/AbCd1234 nice"
  {
    PostedByAlice();
  }

  /** The newer bot's fallback carries only the short link built from the id. */
  lemma ScenarioFallback()
    ensures FallbackText(Some("Alice"), Some("AbCd1234"))
      == "**Alice** posted a clip: " + "https://clips.twitch.tv/AbCd1234"
  {
    PostedByAlice();
    assert "https://clips.twitch.tv/" + "AbCd1234" == "https://clips.twitch.tv/AbCd1234";
  }

  lemma PostedByAlice()
    ensures "**" + "Alice" + "** posted a clip: " == "**Alice** posted a clip: "
  {
  }
}
