# clive, modelled in Dafny

clive is a bot that watches Twitch chat for clip links and reposts each clip once
to a Discord webhook. This project models its core in both versions of the code:

- the newer handler, `src/index.js`;
- the older single-file bot, `index.js`;
- `utils.js`, a `loadConfig` that reads the same settings as the older bot's configuration literal and corrects it;
- `schema.js`, which turns the configuration into a GraphQL type definition.

The handler's stages are:

1. The permission gate (`Gate`): the bot's own messages, broadcaster-only, mods-only and subs-only.
2. Clip detection. `ClipsRegex` models `CLIPS_REGEX` in the newer bot; the older bot searches for the substring `clips.twitch.tv/`.
3. Clip-id extraction (`LinkExtractor`, on top of `UrlPath`): the first matching space-separated token, then the last segment of its path.
4. The dedup store (`Dedup`): lowdb's `postedClipIds`.
5. The Twitch Helix lookups, with the filter that drops clips from channels the bot does not track.
6. Message composition (`Composer`): plain text or a rich embed, plus the fallback used when there is no token.
7. Webhook delivery (`Publisher`): one POST, or a preview POST followed by an embed POST. The clip is recorded only after the last POST gets a 204.

`Pipeline` and `LegacyPipeline` join these stages into one function per handler. Each returns a record of every effect:

- the lookups issued;
- the bodies posted;
- the store left behind.

The outside world enters as plain inputs:

- Twitch's replies;
- Discord's status codes;
- the clock.

`Config` models the `utils.js` loader, `LegacyConfig` the older bot's configuration literal, and `Schema` the GraphQL type string built from a configuration. The newer handler takes its settings from `./config` (src/index.js:14), a file that is not part of this model; `Pipeline.Settings` receives them as an input. `JsValues` and `Strings` hold the JavaScript semantics the code relies on:

- truthiness;
- `typeof`;
- template rendering of `undefined`;
- `split`, `join`, `indexOf`, `replace`, `slice`, `trim`, `toLowerCase`;
- `isNaN` on strings, following the StringNumericLiteral grammar of section 7.1.4.1.1 of ECMA-262.

Three behaviours of the code are easy to misread:

- Without an app token, the newer bot posts `https://clips.twitch.tv/<id>`, not the chat line. The chat line is what the older bot posts.
- Inserting into the store does not deduplicate. Only the handler's check before posting does (`Dedup.InsertPresentDuplicates`).
- An empty or all-blank setting is typed `Int` in the GraphQL schema, because `isNaN('')` is false (`Schema.BlankIsInt`).

## Model

| member | source | states |
|---|---|---|
| `Strings.Split` | utils.js:29 | `_.split` on one character gives at least one piece, and no piece holds the separator |
| `Strings.SplitJoin` | utils.js:29 | joining pieces that hold no separator and splitting the result gives the pieces back |
| `Strings.JoinSplit` | utils.js:29 | splitting a string and joining the pieces with the same separator gives the string back |
| `Strings.IndexOf` | index.js:129 | `indexOf` is -1 exactly when the pattern does not occur; otherwise it is the first position where the pattern occurs |
| `Strings.ReplaceFirst` | index.js:212 | `replace` with a string pattern changes only the first occurrence, and leaves the string alone when the pattern does not occur |
| `Strings.LastPieceIsSuffix` | src/index.js:188 | `split('/').pop()` is a suffix with no `/`, and a `/` comes right before it unless it is the whole string |
| `Strings.LastPieceAfter` | src/index.js:188 | `split(sep).pop()` of `a + sep + b`, where `b` holds no `sep`, is exactly `b`, whatever `a` holds |
| `Strings.Trim` | src/index.js:135 | `trim` leaves an infix of the input with only white space around it, and the result neither starts nor ends with white space |
| `Strings.SliceTo` | schema.js:54 | `slice(0, end)` counts a negative end from the back and gives `''` when that end falls before the start |
| `ClipsRegex.TestInfix` | src/index.js:35 | the regex searches the whole string, so a match inside any substring is a match of the string |
| `ClipsRegex.ShortLinkMatches` | src/index.js:35 | any token holding `clips.twitch.tv/` (the host in any letter case) followed by a word character matches |
| `ClipsRegex.ShortStringsDoNotMatch` | src/index.js:35 | no string shorter than 15 characters matches either alternative |
| `ClipsRegex.ChannelClipMatches` | src/index.js:35 | any string holding `twitch.tv/<user>/clip`, with no line break in the user name, matches the channel-clip alternative |
| `UrlPath.WhatwgPathname` | src/index.js:187 | `new URL` succeeds only on a token with a valid scheme; under a special scheme the pathname starts with `/`; it holds only `/` and characters of the token |
| `UrlPath.UriPath` | index.js:211 | the urijs path never contains the query or the fragment |
| `UrlPath.UriPathOfAbsolute` | index.js:211 | for `<scheme>://<host><path>` with a valid scheme, a host free of `/`, `?` and `#`, and a path starting with `/` and free of `?` and `#`, the urijs path is exactly `<path>` |
| `LinkExtractor.Filter` | src/index.js:178-180 | `_.filter` keeps exactly the elements that pass the test, and its first element is the first element of the input that passes |
| `LinkExtractor.FilterCounts` | src/index.js:178-180 | an element that passes is kept as many times as it occurs in the input, and one that fails is kept zero times |
| `LinkExtractor.FilterAppend` | src/index.js:178-180 | filtering a concatenation is the concatenation of the filtered parts, so the kept elements stay in input order |
| `LinkExtractor.GetUrlSlug` | src/index.js:176-195 | no clip is found exactly when no token matches the regex; otherwise the outcome is fixed by the first matching token alone: `new URL` throws, or its pathname's last `/`-segment is empty and the link is malformed, or that segment is the id |
| `LinkExtractor.ChannelClipFound` | src/index.js:176-195 | the channel-clip link `https://www.twitch.tv/<channel>/clip/<id>`, with a plain channel name and a non-empty plain id, gives the id |
| `LinkExtractor.FirstShortLinkWins` | src/index.js:176-195 | in a line whose first clip link is `https://clips.twitch.tv/<id>`, the id comes out as written, whatever words come before or after it |
| `LinkExtractor.ShortLinkInLine` | src/index.js:35 | a short clip link anywhere inside a longer line still makes the whole line match |
| `LinkExtractor.ShortLinkIsClip` | src/index.js:35 | every short clip link whose id starts with a word character is detected |
| `LinkExtractor.TrailingSlashMalformed` | src/index.js:187-192 | a short clip link ending in `/` is detected, but its last path segment is empty, so the URL is malformed |
| `LinkExtractor.ScenarioShortLink` | src/index.js:176-195 | the line `check this out https://clips.twitch.tv/AbCd1234 nice` gives the id `AbCd1234` |
| `LinkExtractor.LegacyGetUrlSlug` | index.js:200-219 | a line with no token holding `clips.twitch.tv/` gives `undefined`; otherwise the first such token decides: its urijs path with the first `/` removed is the id, and an empty result gives `undefined` |
| `LinkExtractor.ShortLinkUriPath` | index.js:211 | the urijs path of `https://clips.twitch.tv/<id>` is `/<id>` for a plain id |
| `LinkExtractor.LegacyFirstShortLinkWins` | index.js:200-219 | in a line whose first token holding `clips.twitch.tv/` is `https://clips.twitch.tv/<id>`, the older extractor gives the id as written |
| `LinkExtractor.LegacyScenarioShortLink` | index.js:200-219 | the line `check this out https://clips.twitch.tv/AbCd1234 nice` gives the id `AbCd1234` in the older bot too |
| `LegacyPipeline.DetectionMatchesTokens` | index.js:200-204 | the older bot's whole-line detection succeeds exactly when some token passes the extractor's filter |
| `Dedup.Find` | src/index.js:197-199 | the lookup finds nothing exactly when no record has the id; otherwise it gives the first record with that id |
| `Dedup.Insert` | src/index.js:201-203 | an insert appends exactly one record, with the id and the current time, and keeps every earlier record |
| `Dedup.InsertThenFind` | src/index.js:197-203 | after an insert the id is found: the earlier record if there was one, otherwise the new record |
| `Dedup.InsertKeepsOthers` | src/index.js:197-203 | inserting one id does not change the lookup of any other id |
| `Dedup.InsertAbsentKeepsUnique` | src/index.js:99-108 | inserting an id the lookup did not find keeps at most one record per id |
| `Dedup.InsertPresentDuplicates` | src/index.js:201-203 | insert itself does not deduplicate: inserting an id that is already present breaks uniqueness |
| `Gate.RunChecks` | src/index.js:69-87 | running the checks passes exactly when the sender satisfies every enabled check; a rejection names an enabled check the sender fails |
| `Gate.Decide` | src/index.js:69-87 | the bot's own messages are rejected; a message passes exactly when it is not the bot's own and meets each enabled restriction (mods-only also admits the broadcaster) |
| `Gate.OrderIrrelevant` | src/index.js:70-87 | whether a sender passes does not depend on the order of the three checks |
| `Gate.LegacyRoles` | index.js:107-118 | the older roles: broadcaster exactly when the badge is the string `'1'`, which implies loose equality with `'1'` but not the converse; mod and subscriber exactly when their tag is not one of ToBoolean's falsy values |
| `Gate.LegacyDecide` | index.js:104-121 | the older gate passes exactly when the message is not the bot's own and meets each enabled restriction under the older roles |
| `Gate.LegacyBroadcasterNeedsString` | index.js:107 | a broadcaster badge given as the number 1 fails the older strict comparison |
| `Gate.LooseEqualsOneReference` | src/index.js:61-63 | the case table used for `== '1'` agrees, for every tag value, with IsLooselyEqual (section 7.2.14 of ECMA-262) against the digit string `'1'` |
| `JsValues.TruthyIsToBoolean` | index.js:112-118 | a tag value is truthy exactly when it is not one of ToBoolean's falsy values (section 7.1.2 of ECMA-262): `undefined`, `null`, `false`, `0`, `''` |
| `Pipeline.RolesOf` | src/index.js:61-63 | each role holds exactly when its tag is loosely equal (`==`, IsLooselyEqual of ECMA-262) to `'1'`: the string `'1'`, the number 1, `true`, or an array joining to `'1'` |
| `Pipeline.CreatorLookupRendering` | src/index.js:205-227 | a creator lookup with no record makes the composer throw; a failed lookup returns an error object with none of the record's fields, so the creator renders as `undefined`: in bold after the title in plain mode, and in rich mode as an author with no name or icon linking `https://www.twitch.tv/undefined` |
| `Pipeline.GameLookupRendering` | src/index.js:205-227 | a game lookup with no record composes the same message as a clip with no game; a failed lookup makes the rich composer throw (no box art), and in plain mode inserts ` playing __<error name>__` before the URL line |
| `Pipeline.Front` | src/index.js:59-97 | handling goes on to the id exactly when the gate passes, the event is `PRIVMSG`, the regex matches and `new URL` did not throw; a gate rejection is reported with its verdict |
| `Pipeline.Deliver` | src/index.js:99-168 | a stored clip is neither looked up nor posted. Without a token, the post is the fallback text delivered by the publisher. With a token: a missing or failed clip lookup stops with no post; an untracked channel stops after one lookup; otherwise the four lookups are issued, and the delivery is exactly the publisher's delivery of the composed message, or nothing when composing throws. A record is written only for an absent id and only when the publisher recorded |
| `Pipeline.HandleAsWritten` | src/index.js:90-122 | as written, a message that passes the front stages is delivered with whatever `getUrlSlug` returned, `undefined` included, as its id |
| `Pipeline.Handle` | src/index.js:90-122 | anything looked up or posted comes from a message that passed the gate, was detected, gave an id and was not in the store; a record is written only for that id; otherwise the store is unchanged |
| `Pipeline.AlreadyPostedIsQuiet` | src/index.js:98-108 | a clip already in the store is neither looked up nor posted, and the store is unchanged |
| `Pipeline.OutsiderIsDropped` | src/index.js:138-147 | with channel restriction on, a clip from an untracked channel costs one lookup and is then dropped: no post, no record |
| `Pipeline.TrackedClipIsPosted` | src/index.js:129-163 | a tracked clip whose lookups all succeed is composed and handed to the publisher: the lookups are the clip, the creator, the broadcaster and the game, in that order; the delivery is the publisher's for the composed message; the clip is recorded exactly when every post (two in rich-embed mode, one otherwise) got a 204 |
| `Pipeline.TrackedClipDelivered` | src/index.js:129-163 | the same for the delivery stage with any kind of store key: the four lookups, and a delivery equal to the publisher's delivery of the composed message |
| `Pipeline.FallbackPost` | src/index.js:110-116 | without an app token nothing is looked up; the one post links the clip by id under the poster's display name; the clip is recorded exactly when that post gets a 204 |
| `Pipeline.FallbackLinkRoundTrip` | src/index.js:170-195 | the tokenless message ends in `https://clips.twitch.tv/<id>`, and extracting from that link gives the same id back |
| `Pipeline.HandleKeepsIdsUnique` | src/index.js:98-108 | the handler keeps at most one record per clip id |
| `Pipeline.DeliveredOnce` | src/index.js:98-108 | once a message has been delivered, handling it again posts nothing and looks nothing up |
| `Pipeline.MalformedLinkPostedAsWritten` | src/index.js:187-192 | as written, with no app token, a link that gives no id is posted as `https://clips.twitch.tv/undefined` and recorded under `undefined` |
| `Pipeline.MalformedLinkDedupedAsWritten` | src/index.js:97-108 | as written, once `undefined` is recorded, every later link that gives no id is taken for a clip already posted, for as long as the store stays in memory |
| `Pipeline.TrailingSlashScenario` | src/index.js:187-194 | a plain line holding `https://clips.twitch.tv/<id>/`: as written it is posted and `undefined` is recorded; the corrected handler stops without effects |
| `Composer.PlainText` | src/index.js:316-320 | the plain message is `*<title>*`, a line break, the creator and broadcaster display names in bold around ` created a clip of `, ` playing __<game name>__` exactly when there is a game, a line break, and the clip URL; an `undefined` name renders as `undefined` |
| `Composer.PlainGameClause` | src/index.js:317-319 | with a game, the plain message is the message without one, with ` playing __<name>__` inserted just before the URL line |
| `Composer.Thumbnail` | src/index.js:332-334 | a box-art URL without `{height}` or `{width}` is left unchanged |
| `Composer.BoxArtAt80` | src/index.js:332-334 | a Twitch box-art template `<p>{width}x{height}<s>` becomes `<p>80x80<s>` |
| `Composer.RichEmbed` | src/index.js:322-380 | the embed carries the title, the URL, the fixed colour, the creation time, the creator as author linking `https://www.twitch.tv/<login>`, and the `Channel` field; with a game it adds the box art at 80x80 as thumbnail and a `Game` field holding the name or `''`; a game with no box art throws |
| `Composer.RichGameAdds` | src/index.js:322-380 | the embed with a game is the embed without one, plus the thumbnail and the `Game` field, and nothing else differs |
| `Composer.BuildMessage` | src/index.js:315-382 | the composer throws exactly when the creator or the broadcaster is `undefined`, or a rich game has no box art; otherwise the plain mode gives the plain text and the rich mode gives empty content and exactly the one embed |
| `Composer.ScenarioPlainMessage` | src/index.js:315-320 | a clip `My Clip` by `Bob` of `StreamerX` playing `GameY` gives the plain text `*My Clip*`, `**Bob** created a clip of **StreamerX** playing __GameY__`, then the clip URL, on three lines |
| `Composer.LegacyBuildMessage` | index.js:340-385 | the older composer throws exactly when the game, the creator or the broadcaster is `undefined`, or a rich game has no box art; when it does not throw it gives the newer composer's message |
| `Composer.LegacyDropsGamelessClips` | index.js:342-346 | a clip without a game is never composed by the older bot, but is composed by the newer one |
| `Composer.FallbackText` | src/index.js:170-174 | the tokenless message is the poster's display name in bold, ` posted a clip: `, and `https://clips.twitch.tv/<id>`, with an `undefined` name or id rendered as `undefined` |
| `Composer.LegacyFallbackText` | index.js:195-198 | the older tokenless message is the poster's display name in bold, ` posted a clip: `, and the whole chat line unchanged |
| `Composer.ScenarioFallback` | src/index.js:170-174 | `Alice` posting clip `AbCd1234` without a token gives `**Alice** posted a clip: https://clips.twitch.tv/AbCd1234` |
| `Composer.ScenarioLegacyFallback` | index.js:195-198 | `Alice` posting `check this out https://clips.twitch.tv/AbCd1234 nice` to the older bot gives that line after `**Alice** posted a clip: ` |
| `Publisher.BodyOf` | src/index.js:257-264 | text becomes `{content}`, an object is posted as is, and either way carries the bot's name and avatar |
| `Publisher.Preview` | src/index.js:275-277 | the first of two posts has no embeds, has the clip title and URL as content, and keeps the identity |
| `Publisher.Bodies` | src/index.js:274-312 | two bodies (the preview, then the body) in two-phase mode, otherwise one; no clip record in two-phase mode is the throw |
| `Publisher.PostChain` | src/index.js:281-300 | each POST is sent only after the previous one got a 204; the chain is delivered exactly when every reply is a 204 |
| `Publisher.PostToDiscord` | src/index.js:256-313 | single-phase posts the body once and records exactly on a 204; two-phase sends the embed only after the preview got a 204, and records exactly when both got one |
| `Publisher.FirstFailureStops` | src/index.js:283-311 | a first reply that is not a 204 stops everything: nothing is recorded and at most one POST is sent |
| `Publisher.TwoPhaseBodies` | src/index.js:274-300 | after a 204 for the preview, the embed post keeps the embeds the preview drops, and both posts carry the same identity |
| `LegacyPipeline.LegacyHandle` | index.js:96-159 | the older handler does nothing for its own messages, gated senders, non-`chat` messages or lines without `clips.twitch.tv/`; for an unstored id it runs the lookup path with a client id, and otherwise delivers the older fallback text as `Clive`; a store change is exactly the insert of the extracted id, `undefined` included |
| `LegacyPipeline.LegacyPostWithApi` | index.js:165-193 | the first lookup is the clip; a missing clip stops; an untracked channel stops after one lookup; otherwise the four lookups are issued and the delivery is exactly the publisher's delivery, as `Clive`, of the older composer's message, or nothing when it throws; a record is written only when the publisher recorded |
| `LegacyPipeline.LegacyFallbackPost` | index.js:195-198 | without a client id, the one post repeats the chat line under the poster's name as `Clive`, and is recorded exactly on a 204 |
| `LegacyPipeline.LegacyTrackedClipIsPosted` | index.js:165-193 | a tracked clip with every lookup answered and box art is composed by the older composer and posted as `Clive`; it is recorded exactly when every post (two in rich-embed mode, one otherwise) got a 204 |
| `LegacyPipeline.LegacyGamelessClipLost` | index.js:340-347 | a tracked clip with no game is looked up four times but never posted or recorded by the older bot; the newer composer renders it |
| `Config.ChannelEntry` | utils.js:31-34 | an entry is lower case with one leading `#`, and a `#` already present is not doubled |
| `Config.GenerateChannelList` | utils.js:28-35 | one entry per space-separated piece, in order, with unset read as the empty string |
| `Config.ChannelListShape` | utils.js:28-35 | every entry is a lower-case name starting with `#` and holding no space |
| `Config.ChannelListIdempotent` | utils.js:28-35 | joining the list with spaces and parsing it again gives the same list |
| `Config.LoadConfig` | utils.js:5-24 | setting by setting: an empty or unset text setting takes its default (`dev`, `error`, `db.json`, port 3000); the webhook URL is the variable exactly when it is set; the channels are the generated list of the variable; the client id is the variable exactly when it is non-empty; channel restriction is off exactly for `'false'`; each other switch is on exactly for `'true'` |
| `Config.EmptyEnvironment` | utils.js:5-24 | with nothing set: channel restriction on, every other switch off, port 3000, and the single channel `#` |
| `LegacyConfig.LegacyGenerateChannelList` | index.js:388-394 | the older list puts a `#` in front of every lower-cased piece, whether or not it already starts with one |
| `LegacyConfig.LegacyChannelDoubleHash` | index.js:388-394 | `#Foo` becomes `##foo` in the older list and `#foo` in the `utils.js` one |
| `LegacyConfig.LegacyChannelListNotIdempotent` | index.js:388-394 | parsing the older list again never gives it back |
| `LegacyConfig.LegacyLoadConfig` | index.js:15-29 | the older configuration, setting by setting: `NODE_ENV` is always `undefined`; the webhook URL is the variable exactly when it is set; the client id falls back to `null`; channel restriction is the raw value or `true`; the switches are on exactly for `'true'` |
| `LegacyConfig.LegacyRestrictAlwaysOn` | index.js:22 | the older channel restriction is truthy in every environment; the `utils.js` one is off exactly for `RESTRICT_CHANNELS=false` |
| `LegacyConfig.LegacyNodeEnvIgnored` | index.js:16-48 | with `NODE_ENV=production`, the older bot still logs to the console, whereas the `utils.js` loader reads `production` and would not |
| `Schema.DetermineType` | schema.js:58-68 | arrays and `null` are `[String]`; booleans are `Boolean`; numbers and numeric strings are `Int`; `undefined` and every other string are `String` (four iff clauses) |
| `Schema.NumeralChars` | schema.js:63 | once trimmed, every character of a string `isNaN` accepts is a digit, a hex digit, a sign, a point, a radix letter or a letter of `Infinity` |
| `Schema.ColonIsString` | schema.js:63-66 | a value whose trimmed form holds a `:`, such as a webhook URL, is typed `String` |
| `Schema.DigitStringIsInt` | schema.js:63-64 | a non-empty string of decimal digits is typed `Int` |
| `Schema.BlankIsInt` | schema.js:63-64 | an empty or all-blank string is typed `Int` |
| `Schema.PaddingIgnored` | schema.js:63 | white space around a value does not change its type |
| `Schema.KeptMembers` | schema.js:39-49 | an entry is kept exactly when it is an entry of the configuration and its key is not ignored |
| `Schema.KeptAppend` | schema.js:48-49 | keeping distributes over concatenation, so the kept entries stay in the configuration's order |
| `Schema.FieldsOfKept` | schema.js:48-51 | there is one field per kept entry, and each is `camelCase(key): Type` for that entry |
| `Schema.TerminatedIsJoined` | schema.js:50-54 | appending `, ` after every field and cutting the last two characters is joining with `, ` |
| `Schema.ConvertConfig` | schema.js:38-56 | the field string is the kept fields joined by `, `, and is empty when nothing is kept |
| `Schema.ConfigFields` | schema.js:48-52 | a configuration record yields exactly eight fields, in the literal's order; the channel list is `[String]` and the five switches are `Boolean` |
| `Schema.LoadedConfigFields` | schema.js:38-56 | for the loaded configuration, a webhook URL that is unset or holds a `:` is `String`, and an unset client id is `String` |
| `Schema.BuildTypeDefs` | schema.js:12-27 | the type definitions are the `Setting` header, then the field string, then the `Query` type returning `[Setting]` |
| `Schema.BuildResolvers` | schema.js:29-36 | the `settings` resolver returns the configuration it was built from |
| `Schema.InitApi` | schema.js:5-10 | the schema's type definitions are built from the configuration's own entries, and its resolver returns that configuration |

## Left out

- HTTP, the Twitch Helix API and the Discord webhook are not modelled. Their replies are inputs: `Replies`, `LegacyReplies` and `Response` lists.
- Promise scheduling, concurrency and interleaving are not modelled. One message is handled to completion before the next, so two concurrent handlers racing on the store are out of scope.
- The chat clients (twitch-js, tmi.js), connecting and joining channels are not modelled. A message arrives as a `ChatMessage` or `LegacyMessage` value.
- Resolving channel names to ids (`resolveTwitchUsernamesToIds`, src/index.js:229-254) is not modelled. The resolved ids are the `trackedIds` input, and a failed resolution is `None`.
- The app-token and authentication code, `config.js` and `logger.js` are not part of this model. `hasAppToken` and `identity` are inputs.
- lowdb persistence and file writes are not modelled; the store is a value. `Date.now()` is the `now` input.
- The store's round trip through the JSON file is not modelled, so a record survives a restart unchanged in the model. In the source, `JSON.stringify` drops an `id` that is `undefined`, so the `undefined` record stops matching after a restart.
- Logging (winston and the logger module) is left out, except for whether console logging is on, which `LegacyConfig.LogsToConsole` captures.
- `router.js`, the Koa server (with `apollo-server-koa`), `makeExecutableSchema` and the `/graphql` endpoint are not modelled. `Schema.InitApi` stops at the type string and resolvers that are handed over.
- `camelcase` is a function parameter, not a definition.
- dotenv loading is not modelled; the environment is a `map<string, string>`.
- `Pipeline.RolesOf`: an absent `badges` tag makes the source throw at src/index.js:61. This is not modelled; the broadcaster tag is read as `undefined` instead.
- `UrlPath.WhatwgPathname`: a simplified WHATWG URL parser. It checks the scheme, skips slashes, reads the host, and cuts the query and fragment. It does no percent-encoding, no dot-segment removal, no host validation beyond non-emptiness, and no handling of ports or credentials.
- `Pipeline.Deliver`, `LegacyPipeline.LegacyPostWithApi`: some failures reject a promise that nothing handles. In the newer bot, the `Promise.all(...).then(...)` that calls the composer (src/index.js:149-163) is not returned, so a composer throw (the halt `RenderFailed`) never reaches the `.catch` at src/index.js:165-167. In the older bot, `postUsingTwitchAPI` (index.js:165-193) has no `.catch`, so a missing clip (reading `broadcaster_id` of `undefined`) and a composer throw are both unhandled. The model gives these cases no post and no record, as the source does. What the runtime does with an unhandled rejection, such as ending the process, is not modelled.
- `Pipeline.Front`: when `new URL` throws (src/index.js:187), the `TypeError` escapes the `PRIVMSG` listener (src/index.js:59, 96). The model ends handling there with the halt `UrlError` and no effects. What the chat client does with the escaped exception is not modelled.
- `UrlPath.IsSpecialScheme`: `file` is not in the special set, so a `file:` token takes the path of a non-special scheme. The WHATWG URL standard treats `file` as special, with its own host rules. A `file:` token matches the clip regex only when it spells out a Twitch host, and the bot's users post `https` links.
- `UrlPath.UriPath`: a simplified urijs path. It reads authority, scheme-relative, opaque and relative forms. It does not normalise or decode.
- `Strings.Lower`: ASCII case folding only. Characters outside `A`-`Z` are unchanged, while JavaScript's `toLowerCase` also folds non-ASCII letters.
- `JsValues.JsValue`: numbers are integers. No setting or tag value the bot reads is fractional or NaN.
- `Strings.ReplaceFirst`: replacement strings are taken literally. `$` patterns are not interpreted, and none of the source's replacements contains `$`.
- The older `twitchApiGetCall` (index.js:235-254) is summarised by its outcome: a record or `undefined`. The clip's title is not trimmed there, as in the source.

## Findings

| source | as written | input that shows it | evidently intended | confidence | as-written member | corrected member |
|---|---|---|---|---|---|---|
| src/index.js:97-116 | `getUrlSlug` returns `undefined` for a recognised but malformed link, and the handler carries on. It checks the store for `undefined`, posts `https://clips.twitch.tv/undefined` and records `{id: undefined}`. After that, every malformed link is reported as already shared, until the bot restarts: the record is written to disk as JSON, which drops `id: undefined`, so the record read back has no `id` and matches nothing | the chat line `https://clips.twitch.tv/AbCd/`, with no app token and a 204 from Discord | stop when no clip id came out | not executed | `Pipeline.HandleAsWritten`, shown by `Pipeline.TrailingSlashScenario`, `Pipeline.MalformedLinkPostedAsWritten` and `Pipeline.MalformedLinkDedupedAsWritten` | `Pipeline.Handle`, with `Pipeline.HandleKeepsIdsUnique` and `Pipeline.TrailingSlashScenario` |
| index.js:388-394 | every channel gets a `#` in front, even one that already starts with `#` | `TWITCH_CHANNELS=#Foo` gives `##foo` | keep an existing `#`, as the `utils.js` list does | not executed | `LegacyConfig.LegacyGenerateChannelList`, shown by `LegacyConfig.LegacyChannelDoubleHash` and `LegacyConfig.LegacyChannelListNotIdempotent` | `Config.GenerateChannelList`, with `Config.ChannelListIdempotent` |
| index.js:22 | `RESTRICT_CHANNELS` is the raw string or `true`, so every value, `'false'` included, is truthy | `RESTRICT_CHANNELS=false` | `'false'` turns the restriction off | not executed | `LegacyConfig.LegacyLoadConfig`, shown by `LegacyConfig.LegacyRestrictAlwaysOn` | `Config.LoadConfig`, with `LegacyConfig.LegacyRestrictAlwaysOn` (second clause) |
| index.js:340-347 | the older composer always reads the game's `name` or `box_art_url`, so a clip with no game throws, and the clip is neither posted nor recorded | a tracked clip whose `games` lookup has no record | post the clip without the game, as the newer composer does | not executed | `Composer.LegacyBuildMessage`, shown by `LegacyPipeline.LegacyGamelessClipLost` and `Composer.LegacyDropsGamelessClips` | `Composer.BuildMessage`, with `Composer.LegacyDropsGamelessClips` (second clause) |
| index.js:16 | `NODE_ENV` is read from `process.end`, which does not exist, so it is always `undefined` and production never turns console logging off | `NODE_ENV=production` | read `process.env.NODE_ENV` | not executed | `LegacyConfig.LegacyLoadConfig`, shown by `LegacyConfig.LegacyNodeEnvIgnored` | `Config.LoadConfig`, which reads `NODE_ENV` as set, with `LegacyConfig.LegacyNodeEnvIgnored` (second and third clauses) |
