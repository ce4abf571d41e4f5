/**
 `postToDiscord`: the webhook body and the chain of POST requests that
 delivers it. Discord's replies are inputs: `responses[i]` is the reply to the
 `i`-th request, and a reply not yet in the list has not arrived.
 */
module Publisher {
  import opened JsValues
  import opened Composer

  /** The JSON body of one webhook POST. */
  datatype Body = Body(content: string, embeds: Option<seq<Embed>>, username: Option<string>, avatarUrl: Option<string>)

  /** The reply to one POST: a status code, or a failed request. */
  datatype Response = Status(code: int) | RequestError

  /** The name and avatar the bot posts under. */
  datatype Identity = Identity(username: Option<string>, avatarUrl: Option<string>)

  /** The identity of index.js:288-289. */
  function LegacyIdentity(): Identity
  {
    Identity(Some("Clive"), Some("http://i.imgur.com/9s3TBNv.png"))
  }

  /** The body: a text becomes `{content}`, an embed message is taken as is;
      either way the identity is set on it. */
  function BodyOf(content: Content, id: Identity): (b: Body)
    ensures b.username == id.username && b.avatarUrl == id.avatarUrl
    ensures content.Text? ==> b.content == content.text && b.embeds.None?
    ensures content.Rich? ==> b.content == content.content && b.embeds == Some(content.embeds)
  {
    match content
    case Text(s) => Body(s, None, id.username, id.avatarUrl)
    case Rich(c, es) => Body(c, Some(es), id.username, id.avatarUrl)
  }

  /** The first of the two posts: a copy of the body without its embeds and
      with the clip's title and URL as content (Discord previews the video). */
  function Preview(b: Body, clip: ClipInfo): (p: Body)
    ensures p.embeds.None?
    ensures p.content == "*" + clip.title + "*\n" + clip.url
    ensures p.username == b.username && p.avatarUrl == b.avatarUrl
  {
    b.(embeds := None, content := "*" + clip.title + "*\n" + clip.url)
  }

  /** The bodies to post, in order: `[preview, body]` in two-phase mode, else
      `[body]`. `None` when two-phase mode has no clip record to read the
      title from (the source throws). */
  function Bodies(content: Content, id: Identity, twoPhase: bool, clip: Option<ClipInfo>): (r: Option<seq<Body>>)
    ensures r.None? <==> twoPhase && clip.None?
    ensures r.Some? ==> |r.value| == (if twoPhase then 2 else 1)
    ensures r.Some? ==> r.value[|r.value| - 1] == BodyOf(content, id)
    ensures r.Some? && twoPhase ==> r.value[0] == Preview(BodyOf(content, id), clip.value)
  {
    var b := BodyOf(content, id);
    if !twoPhase then Some([b])
    else if clip.None? then None
    else Some([Preview(b, clip.value), b])
  }

  predicate IsNoContent(r: Response)
  {
    r == Status(204)
  }

  /** Every one of the first `n` replies has arrived and is a 204. */
  predicate AllNoContent(responses: seq<Response>, n: nat)
  {
    n <= |responses| && forall i :: 0 <= i < n ==> IsNoContent(responses[i])
  }

  /** The outcome of posting `bodies` one after the other, each only after the
      previous one got a 204: how many were sent, and whether all were
      delivered. */
  datatype Chain = Chain(sent: nat, delivered: bool)

  function PostChain(bodies: seq<Body>, responses: seq<Response>): (c: Chain)
    ensures c.sent <= |bodies|
    ensures |bodies| > 0 ==> c.sent >= 1
    ensures c.delivered <==> AllNoContent(responses, |bodies|)
    ensures c.delivered ==> c.sent == |bodies|
    ensures c.sent > 0 ==> AllNoContent(responses, c.sent - 1)
    ensures 0 < c.sent < |bodies| ==> !(c.sent - 1 < |responses| && IsNoContent(responses[c.sent - 1]))
    decreases |bodies|
  {
    if |bodies| == 0 then Chain(0, true)
    else if |responses| == 0 || !IsNoContent(responses[0]) then Chain(1, false)
    else
      var c := PostChain(bodies[1..], responses[1..]);
      Chain(c.sent + 1, c.delivered)
  }

  /** The result of `postToDiscord`: the bodies actually POSTed, in order,
      and whether the clip id is to be recorded. */
  datatype Delivery = Delivery(posts: seq<Body>, record: bool)

  /** `postToDiscord` of src/index.js:256-313 (and index.js:281-338, with the
      fixed identity): the dedup record is written only after the last post
      got a 204. */
  function PostToDiscord(content: Content, id: Identity, twoPhase: bool, clip: Option<ClipInfo>,
                         responses: seq<Response>): (d: Delivery)
    ensures twoPhase && clip.None? ==> d.posts == [] && !d.record
    ensures !twoPhase ==> d.posts == [BodyOf(content, id)]
    ensures !twoPhase ==> (d.record <==> |responses| >= 1 && IsNoContent(responses[0]))
    ensures twoPhase && clip.Some? ==> 1 <= |d.posts| <= 2 && d.posts[0] == Preview(BodyOf(content, id), clip.value)
    ensures twoPhase && clip.Some? ==>
      (|d.posts| == 2 <==> |responses| >= 1 && IsNoContent(responses[0]))
    ensures twoPhase && |d.posts| == 2 ==> d.posts[1] == BodyOf(content, id)
    ensures twoPhase ==> (d.record <==> clip.Some? && AllNoContent(responses, 2))
  {
    match Bodies(content, id, twoPhase, clip)
    case None => Delivery([], false)
    case Some(bodies) =>
      var c := PostChain(bodies, responses);
      Delivery(bodies[..c.sent], c.delivered)
  }

  /** A non-204 or failed first reply stops everything: in single-phase mode
      nothing is recorded, in two-phase mode the embed is never sent. */
  lemma FirstFailureStops(content: Content, id: Identity, twoPhase: bool, clip: Option<ClipInfo>,
                          responses: seq<Response>)
    requires |responses| >= 1 && !IsNoContent(responses[0])
    ensures var d := PostToDiscord(content, id, twoPhase, clip, responses);
      !d.record && |d.posts| <= 1
  {
  }

  /** The embed post keeps the embeds the preview drops, and both posts carry
      the same identity. */
  lemma TwoPhaseBodies(content: Content, id: Identity, clip: ClipInfo, responses: seq<Response>)
    requires content.Rich?
    requires |responses| >= 1 && IsNoContent(responses[0])
    ensures var d := PostToDiscord(content, id, true, Some(clip), responses);
      && |d.posts| == 2
      && d.posts[0].embeds.None? && d.posts[1].embeds == Some(content.embeds)
      && d.posts[0].username == d.posts[1].username == id.username
      && d.posts[0].avatarUrl == d.posts[1].avatarUrl == id.avatarUrl
  {
  }
}
