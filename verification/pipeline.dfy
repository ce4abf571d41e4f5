/**
 The chat-message handler of src/index.js, end to end: permission gate,
 clip detection, id extraction, dedup lookup, Twitch API lookups with the
 outsider filter, composition, webhook delivery and the dedup record.

 Every effect is explicit: the API lookups the handler issues, the webhook
 bodies it posts and the store it leaves behind. The replies of Twitch and
 Discord, and the clock, are inputs.

 `HandleAsWritten` follows the source, where an extraction that yields
 `undefined` carries on as a clip id; `Handle` stops there instead, and is the
 handler the properties below are about.
 */
module Pipeline {
  import opened JsValues
  import opened Gate
  import ClipsRegex
  import opened LinkExtractor
  import opened Dedup
  import opened Composer
  import opened Publisher
  import Strings

  /** The tags the handler reads from a chat message. */
  datatype Tags = Tags(badgeBroadcaster: JsValue, mod: JsValue, subscriber: JsValue, displayName: Option<string>)

  datatype ChatMessage = ChatMessage(isSelf: bool, event: string, tags: Tags, text: string)

  /** The sender's roles, src/index.js:61-63: each tag compared with `'1'`
      under loose equality. */
  function RolesOf(t: Tags): (roles: Roles)
    ensures roles.isBroadcaster <==> IsLooselyEqualToDigits(t.badgeBroadcaster, "1")
    ensures roles.isMod <==> IsLooselyEqualToDigits(t.mod, "1")
    ensures roles.isSub <==> IsLooselyEqualToDigits(t.subscriber, "1")
  {
    LooseEqualsOneReference(t.badgeBroadcaster);
    LooseEqualsOneReference(t.mod);
    LooseEqualsOneReference(t.subscriber);
    Roles(LooseEqualsOne(t.badgeBroadcaster), LooseEqualsOne(t.mod), LooseEqualsOne(t.subscriber))
  }

  /** The configuration the handler consults. `hasAppToken` is whether an
      app token was obtained; `trackedIds` are the resolved ids of the joined
      channels, `None` where a resolution failed (an error object, which
      equals no id). */
  datatype Settings = Settings(
    restrictions: Restrictions,
    richEmbed: bool,
    restrictChannels: bool,
    hasAppToken: bool,
    identity: Identity,
    trackedIds: seq<Option<string>>)

  /** The reply to one Helix lookup: the first record, no record (`data[0]`
      is `undefined`), or a failed request, which the lookup returns as the
      error object (carrying only the error's `name`). */
  datatype Lookup<T> = Got(value: T) | Missing | Failed(errorName: string)

  /** Everything the outside world answers while one message is handled. */
  datatype Replies = Replies(
    clip: Lookup<ClipInfo>,
    creator: Lookup<UserInfo>,
    broadcaster: Lookup<UserInfo>,
    game: Lookup<GameInfo>,
    discord: seq<Response>,
    now: int)

  /** A Helix GET `/<endpoint>?id=<id>`. */
  datatype ApiRequest = ApiRequest(endpoint: string, id: Option<string>)

  /** Where handling of a message ended. */
  datatype Halt =
    | Rejected(verdict: Verdict)
    | OtherEvent
    | NoClipLink
    | UrlError
    | NoClipId
    | AlreadyPosted
    | ClipLookupFailed
    | OutsiderClip
    | RenderFailed
    | Posted

  /** The effects of handling one message. */
  datatype Run<K> = Run(halt: Halt, requests: seq<ApiRequest>, delivery: Delivery, store: Store<K>)

  /** Nothing was requested, posted or recorded. */
  predicate Quiet<K(==)>(r: Run<K>, store: Store<K>)
  {
    r.requests == [] && r.delivery.posts == [] && !r.delivery.record && r.store == store
  }

  function Stop<K>(h: Halt, requests: seq<ApiRequest>, store: Store<K>): (r: Run<K>)
    ensures r.halt == h && r.requests == requests && r.store == store
    ensures r.delivery.posts == [] && !r.delivery.record
  {
    Run(h, requests, Delivery([], false), store)
  }

  /** What a user lookup looks like to the template: `undefined`, the record,
      or an error object with none of the record's fields. */
  function UserValue(l: Lookup<UserInfo>): (r: Option<UserInfo>)
    ensures l.Got? ==> r == Some(l.value)
    ensures l.Missing? ==> r.None?
    ensures l.Failed? ==> r == Some(UserInfo(None, None, None))
  {
    match l
    case Got(u) => Some(u)
    case Missing => None
    case Failed(_) => Some(UserInfo(None, None, None))
  }

  /** What a game lookup looks like to the template: an error object is
      truthy, has a `name` and no box art URL. */
  function GameValue(l: Lookup<GameInfo>): (r: Option<GameInfo>)
    ensures l.Got? ==> r == Some(l.value)
    ensures l.Missing? ==> r.None?
    ensures l.Failed? ==> r == Some(GameInfo(Some(l.errorName), None))
  {
    match l
    case Got(g) => Some(g)
    case Missing => None
    case Failed(n) => Some(GameInfo(Some(n), None))
  }

  /** How the creator lookup shows in the message: a missing record makes the
      template throw, and a failed lookup stands in as a record whose fields
      are all `undefined`, so the creator's name reads `undefined`. */
  lemma CreatorLookupRendering(richEmbed: bool, l: Lookup<UserInfo>, b: UserInfo,
                               game: Option<GameInfo>, clip: ClipInfo)
    ensures l.Missing? ==> BuildMessage(richEmbed, UserValue(l), Some(b), game, clip).None?
    ensures l.Failed? && !richEmbed ==>
      var m := BuildMessage(false, UserValue(l), Some(b), game, clip);
      m.Some? && m.value.Text? && Strings.StartsWith(m.value.text, "*" + clip.title + "*\n**" + "undefined" + "**")
    ensures l.Failed? && richEmbed && (game.None? || game.value.boxArtUrl.Some?) ==>
      var m := BuildMessage(true, UserValue(l), Some(b), game, clip);
      m.Some? && m.value.Rich? && |m.value.embeds| == 1
      && m.value.embeds[0].author == Author(None, TwitchHome + "undefined", None)
  {
  }

  /** How the game lookup shows in the message: a missing record is a clip
      without a game; a failed lookup is a game named after the error, which
      the plain message prints and the rich embed cannot render (it has no
      box art). */
  lemma GameLookupRendering(richEmbed: bool, u: UserInfo, b: UserInfo, l: Lookup<GameInfo>, clip: ClipInfo)
    ensures l.Missing? ==>
      && BuildMessage(richEmbed, Some(u), Some(b), GameValue(l), clip) == BuildMessage(richEmbed, Some(u), Some(b), None, clip)
      && BuildMessage(richEmbed, Some(u), Some(b), GameValue(l), clip).Some?
    ensures l.Failed? && richEmbed ==> BuildMessage(true, Some(u), Some(b), GameValue(l), clip).None?
    ensures l.Failed? && !richEmbed ==>
      var without := PlainText(clip, u, b, None);
      var cut := |without| - |clip.url| - 1;
      BuildMessage(false, Some(u), Some(b), GameValue(l), clip)
        == Some(Text(without[..cut] + (" playing __" + l.errorName + "__") + without[cut..]))
  {
    if l.Failed? {
      PlainGameClause(clip, u, b, GameInfo(Some(l.errorName), None));
    }
  }

  /** The fallback post ends in the short link of the extracted id, and
      extracting from that link gives the id back. */
  lemma FallbackLinkRoundTrip(name: Option<string>, id: string)
    requires |id| > 0 && ClipsRegex.IsWordChar(id[0])
    requires forall c :: c in id ==> IsPlainIdChar(c)
    ensures FallbackText(name, Some(id)) == "**" + Render(name) + "** posted a clip: " + ShortLinkUrl(id)
    ensures GetUrlSlug(ShortLinkUrl(id)) == Found(id)
  {
    FallbackLink(name, id);
    FirstShortLinkWins([], id, []);
    assert [] + [ShortLinkUrl(id)] + [] == [ShortLinkUrl(id)];
  }

  lemma FallbackLink(name: Option<string>, id: string)
    ensures FallbackText(name, Some(id)) == "**" + Render(name) + "** posted a clip: " + ShortLinkUrl(id)
  {
    var head := "**" + Render(name) + "** posted a clip: ";
    assert "https://clips.twitch.tv/" == "https://" + ("clips.twitch.tv" + "/");
    assert head + "https://clips.twitch.tv/" + id == head + ShortLinkUrl(id);
  }

  /** The three lookups issued once a clip is known and not an outsider. */
  function DetailRequests(c: ClipInfo): seq<ApiRequest>
  {
    [ApiRequest("users", Some(c.creatorId)), ApiRequest("users", Some(c.broadcasterId)), ApiRequest("games", Some(c.gameId))]
  }

  /** The part of the handler before the id is used (src/index.js:60-97):
      `None` means handling goes on with this extraction. */
  function Front(msg: ChatMessage, rs: Restrictions): (r: Option<Halt>)
    ensures r.None? <==>
      && Decide(msg.isSelf, RolesOf(msg.tags), rs) == Pass
      && msg.event == "PRIVMSG"
      && ClipsRegex.Test(msg.text)
      && !GetUrlSlug(msg.text).UrlThrows?
    ensures r.Some? && Decide(msg.isSelf, RolesOf(msg.tags), rs) != Pass ==>
      r.value == Rejected(Decide(msg.isSelf, RolesOf(msg.tags), rs))
  {
    var verdict := Decide(msg.isSelf, RolesOf(msg.tags), rs);
    if verdict != Pass then Some(Rejected(verdict))
    else if msg.event != "PRIVMSG" then Some(OtherEvent)
    else if !ClipsRegex.Test(msg.text) then Some(NoClipLink)
    else if GetUrlSlug(msg.text).UrlThrows? then Some(UrlError)
    else None
  }

  /** The clip record with its title trimmed, src/index.js:133-136. */
  function Trimmed(c: ClipInfo): (r: ClipInfo)
    ensures r.title == Strings.Trim(c.title)
    ensures r.(title := c.title) == c
  {
    c.(title := Strings.Trim(c.title))
  }

  /** From the dedup check on (src/index.js:99-116, 129-174, 256-313), for a
      clip id stored as `key` and written into requests and links as
      `idText`. */
  function Deliver<K(==)>(key: K, idText: Option<string>, msg: ChatMessage, s: Settings,
                          replies: Replies, store: Store<K>): (r: Run<K>)
    ensures Find(store, key).Some? ==> r.halt == AlreadyPosted && Quiet(r, store)
    ensures r.delivery.record ==> r.store == Insert(store, key, replies.now) && Find(store, key).None?
    ensures !r.delivery.record ==> r.store == store
    ensures r.delivery.posts != [] ==> r.halt == Posted && Find(store, key).None?
    ensures s.hasAppToken && Find(store, key).None? ==>
      |r.requests| >= 1 && r.requests[0] == ApiRequest("clips", idText)
    ensures !s.hasAppToken ==> r.requests == []
    ensures s.hasAppToken && Find(store, key).None? && !replies.clip.Got? ==>
      r.halt == ClipLookupFailed && r.delivery.posts == [] && r.store == store
    ensures s.hasAppToken && Find(store, key).None? && replies.clip.Got? ==>
      var c := Trimmed(replies.clip.value);
      var m := BuildMessage(s.richEmbed, UserValue(replies.creator), UserValue(replies.broadcaster),
                            GameValue(replies.game), c);
      if s.restrictChannels && Some(c.broadcasterId) !in s.trackedIds then
        r.halt == OutsiderClip && r.delivery.posts == [] && r.store == store
      else
        && r.requests == [ApiRequest("clips", idText)] + DetailRequests(c)
        && (m.None? ==> r.halt == RenderFailed && r.delivery.posts == [] && r.store == store)
        && (m.Some? ==> r.delivery == PostToDiscord(m.value, s.identity, s.richEmbed, Some(c), replies.discord))
    ensures !s.hasAppToken && Find(store, key).None? ==>
      r.delivery == PostToDiscord(Text(FallbackText(msg.tags.displayName, idText)), s.identity, false, None, replies.discord)
  {
    if Find(store, key).Some? then Stop(AlreadyPosted, [], store)
    else if s.hasAppToken then
      var clipRequest := [ApiRequest("clips", idText)];
      match replies.clip
      case Missing => Stop(ClipLookupFailed, clipRequest, store)
      case Failed(_) => Stop(ClipLookupFailed, clipRequest, store)
      case Got(found) =>
        var clip := Trimmed(found);
        if s.restrictChannels && Some(clip.broadcasterId) !in s.trackedIds then
          Stop(OutsiderClip, clipRequest, store)
        else
          var requests := clipRequest + DetailRequests(clip);
          match BuildMessage(s.richEmbed, UserValue(replies.creator), UserValue(replies.broadcaster),
                             GameValue(replies.game), clip)
          case None => Stop(RenderFailed, requests, store)
          case Some(content) =>
            var d := PostToDiscord(content, s.identity, s.richEmbed, Some(clip), replies.discord);
            Run(Posted, requests, d, if d.record then Insert(store, key, replies.now) else store)
    else
      var content := Text(FallbackText(msg.tags.displayName, idText));
      var d := PostToDiscord(content, s.identity, false, None, replies.discord);
      Run(Posted, [], d, if d.record then Insert(store, key, replies.now) else store)
  }

  /** The handler as written: an extraction that gives `undefined` goes on to
      the dedup check, the lookups and the post with `undefined` as its id. */
  function HandleAsWritten(msg: ChatMessage, s: Settings, replies: Replies,
                           store: Store<Option<string>>): (r: Run<Option<string>>)
    ensures Front(msg, s.restrictions).Some? ==> r.halt == Front(msg, s.restrictions).value && Quiet(r, store)
    ensures Front(msg, s.restrictions).None? ==>
      r == Deliver(ReturnedId(GetUrlSlug(msg.text)), ReturnedId(GetUrlSlug(msg.text)), msg, s, replies, store)
  {
    match Front(msg, s.restrictions)
    case Some(h) => Stop(h, [], store)
    case None =>
      var id := ReturnedId(GetUrlSlug(msg.text));
      Deliver(id, id, msg, s, replies, store)
  }

  /** The handler with the extraction's failure as a stopping point. */
  function Handle(msg: ChatMessage, s: Settings, replies: Replies, store: Store<string>): (r: Run<string>)
    ensures msg.isSelf ==> r.halt == Rejected(RejectSelf) && Quiet(r, store)
    ensures Decide(msg.isSelf, RolesOf(msg.tags), s.restrictions) != Pass ==>
      r.halt == Rejected(Decide(msg.isSelf, RolesOf(msg.tags), s.restrictions)) && Quiet(r, store)
    ensures r.requests != [] || r.delivery.posts != [] ==>
      && Decide(msg.isSelf, RolesOf(msg.tags), s.restrictions) == Pass
      && msg.event == "PRIVMSG"
      && ClipsRegex.Test(msg.text)
      && GetUrlSlug(msg.text).Found?
      && Find(store, GetUrlSlug(msg.text).id).None?
    ensures r.delivery.record ==>
      && GetUrlSlug(msg.text).Found?
      && r.store == Insert(store, GetUrlSlug(msg.text).id, replies.now)
    ensures !r.delivery.record ==> r.store == store
  {
    match Front(msg, s.restrictions)
    case Some(h) => Stop(h, [], store)
    case None =>
      match GetUrlSlug(msg.text)
      case Found(id) => Deliver(id, Some(id), msg, s, replies, store)
      case _ => Stop(NoClipId, [], store)
  }

  // ---------------------------------------------------------------------------
  // properties of the handler

  /** A clip already in the store is neither looked up nor posted again, and
      the store is left alone. */
  lemma AlreadyPostedIsQuiet(msg: ChatMessage, s: Settings, replies: Replies, store: Store<string>)
    requires Front(msg, s.restrictions).None?
    requires GetUrlSlug(msg.text).Found? && Find(store, GetUrlSlug(msg.text).id).Some?
    ensures var r := Handle(msg, s, replies, store);
      r.halt == AlreadyPosted && Quiet(r, store)
  {
  }

  /** With channel restriction on, a clip from an untracked channel is looked
      up but then dropped: one request, no post, nothing recorded. */
  lemma OutsiderIsDropped(msg: ChatMessage, s: Settings, replies: Replies, store: Store<string>)
    requires Front(msg, s.restrictions).None? && GetUrlSlug(msg.text).Found?
    requires Find(store, GetUrlSlug(msg.text).id).None?
    requires s.hasAppToken && s.restrictChannels
    requires replies.clip.Got? && Some(replies.clip.value.broadcasterId) !in s.trackedIds
    ensures var r := Handle(msg, s, replies, store);
      && r.halt == OutsiderClip
      && r.requests == [ApiRequest("clips", Some(GetUrlSlug(msg.text).id))]
      && r.delivery.posts == [] && r.store == store
  {
  }

  /** A tracked clip, with every lookup answered, is posted once per phase; the
      lookups are the clip, its creator, its broadcaster and its game, in that
      order. */
  lemma TrackedClipIsPosted(msg: ChatMessage, s: Settings, replies: Replies, store: Store<string>)
    requires Front(msg, s.restrictions).None? && GetUrlSlug(msg.text).Found?
    requires Find(store, GetUrlSlug(msg.text).id).None?
    requires s.hasAppToken
    requires replies.clip.Got? && replies.creator.Got? && replies.broadcaster.Got? && replies.game.Got?
    requires replies.game.value.boxArtUrl.Some?
    requires s.restrictChannels ==> Some(replies.clip.value.broadcasterId) in s.trackedIds
    ensures var r := Handle(msg, s, replies, store);
      var c := Trimmed(replies.clip.value);
      var m := BuildMessage(s.richEmbed, Some(replies.creator.value), Some(replies.broadcaster.value),
                            Some(replies.game.value), c);
      && r.halt == Posted
      && r.requests == [ApiRequest("clips", Some(GetUrlSlug(msg.text).id))] + DetailRequests(c)
      && m.Some?
      && r.delivery == PostToDiscord(m.value, s.identity, s.richEmbed, Some(c), replies.discord)
      && |r.delivery.posts| >= 1
    ensures var r := Handle(msg, s, replies, store);
      && (r.delivery.record <==> AllNoContent(replies.discord, if s.richEmbed then 2 else 1))
      && r.store == if r.delivery.record then Insert(store, GetUrlSlug(msg.text).id, replies.now) else store
  {
    var id := GetUrlSlug(msg.text).id;
    assert Handle(msg, s, replies, store) == Deliver(id, Some(id), msg, s, replies, store);
    TrackedClipDelivered(id, Some(id), msg, s, replies, store);
  }

  /** `Deliver` for a tracked clip whose lookups all succeeded. */
  lemma TrackedClipDelivered<K>(key: K, idText: Option<string>, msg: ChatMessage, s: Settings,
                                 replies: Replies, store: Store<K>)
    requires Find(store, key).None?
    requires s.hasAppToken
    requires replies.clip.Got? && replies.creator.Got? && replies.broadcaster.Got? && replies.game.Got?
    requires replies.game.value.boxArtUrl.Some?
    requires s.restrictChannels ==> Some(replies.clip.value.broadcasterId) in s.trackedIds
    ensures var r := Deliver(key, idText, msg, s, replies, store);
      var c := Trimmed(replies.clip.value);
      var m := BuildMessage(s.richEmbed, Some(replies.creator.value), Some(replies.broadcaster.value),
                            Some(replies.game.value), c);
      && r.halt == Posted
      && r.requests == [ApiRequest("clips", idText)] + DetailRequests(c)
      && m.Some?
      && r.delivery == PostToDiscord(m.value, s.identity, s.richEmbed, Some(c), replies.discord)
      && |r.delivery.posts| >= 1
  {
    var c := Trimmed(replies.clip.value);
    assert BuildMessage(s.richEmbed, UserValue(replies.creator), UserValue(replies.broadcaster),
                        GameValue(replies.game), c).Some?;
  }

  /** Without an app token nothing is looked up and the one post links the
      clip by id under the poster's display name. */
  lemma FallbackPost(msg: ChatMessage, s: Settings, replies: Replies, store: Store<string>)
    requires Front(msg, s.restrictions).None? && GetUrlSlug(msg.text).Found?
    requires Find(store, GetUrlSlug(msg.text).id).None?
    requires !s.hasAppToken
    ensures var r := Handle(msg, s, replies, store);
      var id := GetUrlSlug(msg.text).id;
      && r.requests == []
      && r.delivery.posts == [BodyOf(Text(FallbackText(msg.tags.displayName, Some(id))), s.identity)]
      && (r.delivery.record <==> |replies.discord| >= 1 && IsNoContent(replies.discord[0]))
  {
  }

  /** The store never holds two records for one clip: the handler only
      records an id the store did not have. */
  lemma {:induction false} HandleKeepsIdsUnique(msg: ChatMessage, s: Settings, replies: Replies, store: Store<string>)
    requires UniqueIds(store)
    ensures UniqueIds(Handle(msg, s, replies, store).store)
  {
    var r := Handle(msg, s, replies, store);
    if r.delivery.record {
      InsertAbsentKeepsUnique(store, GetUrlSlug(msg.text).id, replies.now);
    }
  }

  /** Handling a message twice in a row, with the first one delivered, does
      not post the clip a second time. */
  lemma {:induction false} DeliveredOnce(msg: ChatMessage, s: Settings, r1: Replies, r2: Replies, store: Store<string>)
    requires Handle(msg, s, r1, store).delivery.record
    ensures var after := Handle(msg, s, r1, store).store;
      var r := Handle(msg, s, r2, after);
      r.halt == AlreadyPosted && Quiet(r, after)
  {
    var id := GetUrlSlug(msg.text).id;
    InsertThenFind(store, id, r1.now);
  }

  // ---------------------------------------------------------------------------
  // the handler as written

  /** With no app token, a recognised link that yields no id (its last path
      segment is empty) is posted as `https://clips.twitch.tv/undefined` and
      recorded under `undefined`. */
  lemma MalformedLinkPostedAsWritten(msg: ChatMessage, s: Settings, replies: Replies,
                                     store: Store<Option<string>>)
    requires Front(msg, s.restrictions).None? && GetUrlSlug(msg.text) == MalformedClipUrl
    requires !s.hasAppToken && Find(store, None).None?
    requires |replies.discord| >= 1 && IsNoContent(replies.discord[0])
    ensures var r := HandleAsWritten(msg, s, replies, store);
      && r.delivery.posts == [BodyOf(Text(FallbackText(msg.tags.displayName, None)), s.identity)]
      && r.store == Insert(store, None, replies.now)
  {
  }

  /** Once `undefined` is recorded, every later link that yields no id is
      taken for an already posted clip. */
  lemma MalformedLinkDedupedAsWritten(msg: ChatMessage, s: Settings, replies: Replies,
                                      store: Store<Option<string>>)
    requires Front(msg, s.restrictions).None?
    requires GetUrlSlug(msg.text) == MalformedClipUrl || GetUrlSlug(msg.text) == NoClipFound
    requires Find(store, None).Some?
    ensures HandleAsWritten(msg, s, replies, store).halt == AlreadyPosted
  {
  }

  /** A plain chat line holding `https://clips.twitch.tv/<id>/` (an id with a
      trailing slash) shows the difference: as written it is posted with the
      id `undefined` and recorded; the corrected handler stops. */
  lemma TrailingSlashScenario(id: string, tags: Tags, s: Settings, replies: Replies)
    requires |id| > 0 && ClipsRegex.IsWordChar(id[0])
    requires forall c :: c in id ==> IsPlainIdChar(c)
    requires Decide(false, RolesOf(tags), s.restrictions) == Pass
    requires !s.hasAppToken
    requires |replies.discord| >= 1 && IsNoContent(replies.discord[0])
    ensures var msg := ChatMessage(false, "PRIVMSG", tags, ShortLinkUrl(id + "/"));
      && HandleAsWritten(msg, s, replies, []).store == [ClipRecord(None, replies.now)]
      && HandleAsWritten(msg, s, replies, []).delivery.posts != []
      && Handle(msg, s, replies, []).halt == NoClipId
      && Quiet(Handle(msg, s, replies, []), [])
  {
    var msg := ChatMessage(false, "PRIVMSG", tags, ShortLinkUrl(id + "/"));
    TrailingSlashFront(id, tags, s);
    MalformedLinkPostedAsWritten(msg, s, replies, []);
    assert Insert<Option<string>>([], None, replies.now) == [ClipRecord(None, replies.now)];
  }

  lemma TrailingSlashFront(id: string, tags: Tags, s: Settings)
    requires |id| > 0 && ClipsRegex.IsWordChar(id[0])
    requires forall c :: c in id ==> IsPlainIdChar(c)
    requires Decide(false, RolesOf(tags), s.restrictions) == Pass
    ensures var msg := ChatMessage(false, "PRIVMSG", tags, ShortLinkUrl(id + "/"));
      Front(msg, s.restrictions).None? && GetUrlSlug(msg.text) == MalformedClipUrl
  {
    TrailingSlashMalformed(id);
    var slashed := id + "/";
    assert slashed[0] == id[0];
    ShortLinkIsClip(slashed);
  }
}
