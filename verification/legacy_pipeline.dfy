/**
 The chat-message handler of the older bot (index.js): the same stages as
 the newer one, with the older gate, substring clip detection on `chat`
 messages only, the urijs-based extraction, lookups that give `undefined` on
 any failure, the older composer, and the fixed `Clive` identity.

 The extracted id may be `undefined` and is used as is, so the store is keyed
 by `Option<string>`.
 */
module LegacyPipeline {
  import opened JsValues
  import opened Strings
  import opened Gate
  import opened LinkExtractor
  import opened Dedup
  import opened Composer
  import opened Publisher
  import opened Pipeline

  /** What tmi.js hands the handler: the self flag, the user state with its
      `message-type` and `display-name`, and the chat line. */
  datatype LegacyMessage = LegacyMessage(
    isSelf: bool,
    userstate: Userstate,
    messageType: JsValue,
    displayName: Option<string>,
    text: string)

  /** The configuration the older handler consults. `restrictChannels` is the
      truthiness of the configured value and `hasClientId` that of the client
      id. */
  datatype LegacySettings = LegacySettings(
    restrictions: Restrictions,
    richEmbed: bool,
    restrictChannels: bool,
    hasClientId: bool,
    trackedIds: seq<Option<string>>)

  /** The older lookups catch every failure and give `undefined`. */
  datatype LegacyReplies = LegacyReplies(
    clip: Option<ClipInfo>,
    creator: Option<UserInfo>,
    broadcaster: Option<UserInfo>,
    game: Option<GameInfo>,
    discord: seq<Response>,
    now: int)

  const ClipHost := "clips.twitch.tv/"

  /** The handler of index.js:96-159, with `postUsingTwitchAPI`,
      `postUsingMessageInfo` and `postToDiscord` (index.js:165-198, 281-338). */
  function LegacyHandle(msg: LegacyMessage, s: LegacySettings, replies: LegacyReplies,
                        store: Store<Option<string>>): (r: Run<Option<string>>)
    ensures msg.isSelf ==> r.halt == Rejected(RejectSelf) && Quiet(r, store)
    ensures LegacyDecide(msg.isSelf, msg.userstate, s.restrictions) != Pass ==> Quiet(r, store)
    ensures msg.messageType != Str("chat") || !Contains(msg.text, ClipHost) ==> Quiet(r, store)
    ensures r.requests != [] || r.delivery.posts != [] ==>
      && LegacyDecide(msg.isSelf, msg.userstate, s.restrictions) == Pass
      && msg.messageType == Str("chat")
      && Contains(msg.text, ClipHost)
      && Find(store, LegacyGetUrlSlug(msg.text)).None?
    ensures r.delivery.record ==> r.store == Insert(store, LegacyGetUrlSlug(msg.text), replies.now)
    ensures !r.delivery.record ==> r.store == store
    ensures !s.hasClientId ==> r.requests == []
    ensures (&& LegacyDecide(msg.isSelf, msg.userstate, s.restrictions) == Pass
             && msg.messageType == Str("chat") && Contains(msg.text, ClipHost)
             && Find(store, LegacyGetUrlSlug(msg.text)).None?) ==>
      if s.hasClientId then r == LegacyPostWithApi(LegacyGetUrlSlug(msg.text), s, replies, store)
      else r.delivery == PostToDiscord(Text(LegacyFallbackText(msg.displayName, msg.text)), LegacyIdentity(),
                                       false, None, replies.discord)
  {
    var verdict := LegacyDecide(msg.isSelf, msg.userstate, s.restrictions);
    if verdict != Pass then Stop(Rejected(verdict), [], store)
    else if msg.messageType != Str("chat") then Stop(OtherEvent, [], store)
    else if !Contains(msg.text, ClipHost) then Stop(NoClipLink, [], store)
    else
      var id := LegacyGetUrlSlug(msg.text);
      if Find(store, id).Some? then Stop(AlreadyPosted, [], store)
      else if s.hasClientId then LegacyPostWithApi(id, s, replies, store)
      else
        var content := Text(LegacyFallbackText(msg.displayName, msg.text));
        var d := PostToDiscord(content, LegacyIdentity(), false, None, replies.discord);
        Run(Posted, [], d, if d.record then Insert(store, id, replies.now) else store)
  }

  /** `postUsingTwitchAPI` of index.js:165-193 and the post that follows. A
      missing clip, creator, broadcaster or game makes the composition throw,
      so nothing is posted. */
  function LegacyPostWithApi(id: Option<string>, s: LegacySettings, replies: LegacyReplies,
                             store: Store<Option<string>>): (r: Run<Option<string>>)
    ensures |r.requests| >= 1 && r.requests[0] == ApiRequest("clips", id)
    ensures replies.clip.None? ==> r.halt == ClipLookupFailed && r.delivery.posts == [] && r.store == store
    ensures r.delivery.posts != [] ==>
      && replies.clip.Some? && replies.creator.Some? && replies.broadcaster.Some? && replies.game.Some?
      && (s.restrictChannels ==> Some(replies.clip.value.broadcasterId) in s.trackedIds)
    ensures r.delivery.record ==> r.store == Insert(store, id, replies.now)
    ensures !r.delivery.record ==> r.store == store
    ensures replies.clip.Some? ==>
      var c := replies.clip.value;
      var m := LegacyBuildMessage(s.richEmbed, replies.creator, replies.broadcaster, replies.game, c);
      if s.restrictChannels && Some(c.broadcasterId) !in s.trackedIds then
        r.halt == OutsiderClip && r.delivery.posts == [] && r.store == store
      else
        && r.requests == [ApiRequest("clips", id)] + DetailRequests(c)
        && (m.None? ==> r.halt == RenderFailed && r.delivery.posts == [] && r.store == store)
        && (m.Some? ==> r.delivery == PostToDiscord(m.value, LegacyIdentity(), s.richEmbed, Some(c), replies.discord))
  {
    var clipRequest := [ApiRequest("clips", id)];
    match replies.clip
    case None => Stop(ClipLookupFailed, clipRequest, store)
    case Some(clip) =>
      if s.restrictChannels && Some(clip.broadcasterId) !in s.trackedIds then
        Stop(OutsiderClip, clipRequest, store)
      else
        var requests := clipRequest + DetailRequests(clip);
        match LegacyBuildMessage(s.richEmbed, replies.creator, replies.broadcaster, replies.game, clip)
        case None => Stop(RenderFailed, requests, store)
        case Some(content) =>
          var d := PostToDiscord(content, LegacyIdentity(), s.richEmbed, Some(clip), replies.discord);
          Run(Posted, requests, d, if d.record then Insert(store, id, replies.now) else store)
  }

  /** Without a client id, the one post repeats the whole chat line under the
      poster's display name, as `Clive`. */
  lemma LegacyFallbackPost(msg: LegacyMessage, s: LegacySettings, replies: LegacyReplies,
                           store: Store<Option<string>>)
    requires LegacyDecide(msg.isSelf, msg.userstate, s.restrictions) == Pass
    requires msg.messageType == Str("chat") && Contains(msg.text, ClipHost)
    requires Find(store, LegacyGetUrlSlug(msg.text)).None?
    requires !s.hasClientId
    ensures var r := LegacyHandle(msg, s, replies, store);
      && r.delivery.posts == [BodyOf(Text(LegacyFallbackText(msg.displayName, msg.text)), LegacyIdentity())]
      && (r.delivery.record <==> |replies.discord| >= 1 && IsNoContent(replies.discord[0]))
  {
  }

  /** A tracked clip with every lookup answered is composed by the older
      composer, posted as `Clive`, and recorded exactly when every post got a
      204 (two posts in rich-embed mode, one otherwise). */
  lemma LegacyTrackedClipIsPosted(msg: LegacyMessage, s: LegacySettings, replies: LegacyReplies,
                                  store: Store<Option<string>>)
    requires LegacyDecide(msg.isSelf, msg.userstate, s.restrictions) == Pass
    requires msg.messageType == Str("chat") && Contains(msg.text, ClipHost)
    requires Find(store, LegacyGetUrlSlug(msg.text)).None?
    requires s.hasClientId
    requires replies.clip.Some? && replies.creator.Some? && replies.broadcaster.Some? && replies.game.Some?
    requires replies.game.value.boxArtUrl.Some?
    requires s.restrictChannels ==> Some(replies.clip.value.broadcasterId) in s.trackedIds
    ensures var r := LegacyHandle(msg, s, replies, store);
      var m := LegacyBuildMessage(s.richEmbed, replies.creator, replies.broadcaster, replies.game, replies.clip.value);
      && r.halt == Posted
      && m.Some?
      && r.delivery == PostToDiscord(m.value, LegacyIdentity(), s.richEmbed, replies.clip, replies.discord)
      && (r.delivery.record <==> AllNoContent(replies.discord, if s.richEmbed then 2 else 1))
      && r.store == if r.delivery.record then Insert(store, LegacyGetUrlSlug(msg.text), replies.now) else store
  {
  }

  /** A tracked clip that has no game is looked up in full but never posted
      nor recorded by the older bot; the newer bot's composer renders it. */
  lemma LegacyGamelessClipLost(msg: LegacyMessage, s: LegacySettings, replies: LegacyReplies,
                               store: Store<Option<string>>)
    requires LegacyDecide(msg.isSelf, msg.userstate, s.restrictions) == Pass
    requires msg.messageType == Str("chat") && Contains(msg.text, ClipHost)
    requires Find(store, LegacyGetUrlSlug(msg.text)).None?
    requires s.hasClientId
    requires replies.clip.Some? && replies.creator.Some? && replies.broadcaster.Some? && replies.game.None?
    requires s.restrictChannels ==> Some(replies.clip.value.broadcasterId) in s.trackedIds
    ensures var r := LegacyHandle(msg, s, replies, store);
      && r.halt == RenderFailed && r.delivery.posts == [] && r.store == store
      && |r.requests| == 4
    ensures BuildMessage(s.richEmbed, replies.creator, replies.broadcaster, None, replies.clip.value).Some?
  {
  }

  /** A message is a clip message for the older bot exactly when some word of
      it holds `clips.twitch.tv/`, so detection and extraction agree. */
  lemma {:induction false} DetectionMatchesTokens(message: string)
    ensures Contains(message, ClipHost) <==> exists t :: t in Tokens(message) && IsLegacyClipToken(t)
  {
    if Contains(message, ClipHost) {
      var i :| 0 <= i <= |message| && OccursAt(message, ClipHost, i);
      assert ' ' !in message[i..i + |ClipHost|];
      var k, j := PieceAround(message, ' ', i, |ClipHost|);
      var t := Tokens(message)[k];
      assert t[j..j + |ClipHost|] == message[i..i + |ClipHost|];
      assert OccursAt(t, ClipHost, j);
      assert t in Tokens(message) && IsLegacyClipToken(t);
    }
    if exists t :: t in Tokens(message) && IsLegacyClipToken(t) {
      var t :| t in Tokens(message) && IsLegacyClipToken(t);
      var j :| 0 <= j <= |t| && OccursAt(t, ClipHost, j);
      var k :| 0 <= k < |Tokens(message)| && Tokens(message)[k] == t;
      var o := PieceOffset(message, ' ', k);
      OccursInInfix(message, t, o, ClipHost, j);
    }
  }
}
