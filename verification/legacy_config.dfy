/**
 The configuration literal of the older bot (index.js:15-29) and its
 `generateChannelList` (index.js:388-394), next to the `loadConfig` of utils.js
 that corrects them.
 */
module LegacyConfig {
  import opened JsValues
  import opened Strings
  import Config

  datatype LegacyConfig = LegacyConfig(
    nodeEnv: Option<string>,
    logLevel: string,
    discordWebhookUrl: Option<string>,
    twitchChannels: seq<string>,
    dbFile: string,
    twitchClientId: JsValue,
    restrictChannels: JsValue,
    broadcasterOnly: bool,
    modsOnly: bool,
    subsOnly: bool,
    richEmbed: bool,
    api: bool,
    apiPort: JsValue)

  /** `generateChannelList` of index.js:388-394: every piece is lower-cased
      and gets a `#` in front, whether or not it already has one. */
  function LegacyGenerateChannelList(channels: Option<string>): (r: seq<string>)
    ensures var pieces := Split(OrDefault(channels, ""), ' ');
      |r| == |pieces| && forall i :: 0 <= i < |r| ==> r[i] == "#" + Lower(pieces[i])
  {
    var pieces := Split(OrDefault(channels, ""), ' ');
    seq(|pieces|, i requires 0 <= i < |pieces| => "#" + Lower(pieces[i]))
  }

  /** A channel configured as `#Foo` becomes `##foo`, a channel that does not
      exist; the list of utils.js makes it `#foo`. */
  lemma LegacyChannelDoubleHash()
    ensures LegacyGenerateChannelList(Some("#Foo")) == ["##foo"]
    ensures Config.GenerateChannelList(Some("#Foo")) == ["#foo"]
  {
    SplitNoSep("#Foo", ' ');
    assert OrDefault(Some("#Foo"), "") == "#Foo";
    assert Lower("#Foo") == "#foo";
    assert "#" + "#foo" == "##foo";
    assert StartsWith("#Foo", "#");
  }

  /** Feeding the older list back in never gives it back: every entry gains
      another `#`. */
  lemma {:induction false} LegacyChannelListNotIdempotent(channels: Option<string>)
    ensures var r := LegacyGenerateChannelList(channels);
      LegacyGenerateChannelList(Some(Join(r, ' '))) != r
  {
    var r := LegacyGenerateChannelList(channels);
    var pieces := Split(OrDefault(channels, ""), ' ');
    assert |r| >= 1;
    assert NoneContains(r, ' ') by {
      forall i | 0 <= i < |r| ensures ' ' !in r[i] {
        Config.LowerKeepsOthers(pieces[i], ' ');
      }
    }
    SplitJoin(r, ' ');
    var again := LegacyGenerateChannelList(Some(Join(r, ' ')));
    assert OrDefault(Some(Join(r, ' ')), "") == Join(r, ' ');
    assert |again[0]| == |r[0]| + 1;
  }

  /** The configuration literal of index.js:15-29. `NODE_ENV` is read from
      `process.end`, which does not exist, so it is always `undefined`;
      `RESTRICT_CHANNELS` is the raw value or `true`. */
  function LegacyLoadConfig(env: map<string, string>): (c: LegacyConfig)
    ensures c.nodeEnv.None?
    ensures c.logLevel == (if "LOG_LEVEL" in env && env["LOG_LEVEL"] != "" then env["LOG_LEVEL"] else "error")
    ensures c.dbFile == (if "DB_FILE" in env && env["DB_FILE"] != "" then env["DB_FILE"] else "db.json")
    ensures c.discordWebhookUrl.Some? <==> "DISCORD_WEBHOOK_URL" in env
    ensures c.discordWebhookUrl.Some? ==> c.discordWebhookUrl.value == env["DISCORD_WEBHOOK_URL"]
    ensures c.twitchClientId == (if "TWITCH_CLIENT_ID" in env && env["TWITCH_CLIENT_ID"] != "" then Str(env["TWITCH_CLIENT_ID"]) else Null)
    ensures c.restrictChannels == (if "RESTRICT_CHANNELS" in env && env["RESTRICT_CHANNELS"] != "" then Str(env["RESTRICT_CHANNELS"]) else Bool(true))
    ensures c.broadcasterOnly <==> "BROADCASTER_ONLY" in env && env["BROADCASTER_ONLY"] == "true"
    ensures c.modsOnly <==> "MODS_ONLY" in env && env["MODS_ONLY"] == "true"
    ensures c.subsOnly <==> "SUBS_ONLY" in env && env["SUBS_ONLY"] == "true"
    ensures c.richEmbed <==> "RICH_EMBED" in env && env["RICH_EMBED"] == "true"
    ensures c.api <==> "API" in env && env["API"] == "true"
    ensures c.apiPort == (if "API_PORT" in env && env["API_PORT"] != "" then Str(env["API_PORT"]) else Num(3000))
    ensures c.twitchChannels == LegacyGenerateChannelList(EnvGet(env, "TWITCH_CHANNELS"))
  {
    LegacyConfig(
      None,
      OrDefault(EnvGet(env, "LOG_LEVEL"), "error"),
      EnvGet(env, "DISCORD_WEBHOOK_URL"),
      LegacyGenerateChannelList(EnvGet(env, "TWITCH_CHANNELS")),
      OrDefault(EnvGet(env, "DB_FILE"), "db.json"),
      ValueOr(EnvGet(env, "TWITCH_CLIENT_ID"), Null),
      ValueOr(EnvGet(env, "RESTRICT_CHANNELS"), Bool(true)),
      EnvGet(env, "BROADCASTER_ONLY") == Some("true"),
      EnvGet(env, "MODS_ONLY") == Some("true"),
      EnvGet(env, "SUBS_ONLY") == Some("true"),
      EnvGet(env, "RICH_EMBED") == Some("true"),
      EnvGet(env, "API") == Some("true"),
      ValueOr(EnvGet(env, "API_PORT"), Num(3000)))
  }

  /** `x || dflt` for a value that is not a string. */
  function ValueOr(x: Option<string>, dflt: JsValue): (r: JsValue)
    ensures x.Some? && x.value != "" ==> r == Str(x.value)
    ensures !(x.Some? && x.value != "") ==> r == dflt
  {
    if x.Some? && x.value != "" then Str(x.value) else dflt
  }

  /** The older channel restriction cannot be switched off: its value is
      truthy for every environment, `RESTRICT_CHANNELS=false` included,
      whereas the configuration of utils.js turns it off for exactly that value. */
  lemma LegacyRestrictAlwaysOn(env: map<string, string>)
    ensures Truthy(LegacyLoadConfig(env).restrictChannels)
    ensures Config.LoadConfig(env).restrictChannels <==>
      !("RESTRICT_CHANNELS" in env && env["RESTRICT_CHANNELS"] == "false")
  {
  }

  /** Console logging is added whenever `NODE_ENV` is not `production`
      (index.js:42-48). */
  predicate LogsToConsole(nodeEnv: Option<string>)
  {
    nodeEnv != Some("production")
  }

  /** With the misspelt path, production never switches console logging off;
      read from the environment, as the `loadConfig` of utils.js does, it does. */
  lemma LegacyNodeEnvIgnored(env: map<string, string>)
    requires "NODE_ENV" in env && env["NODE_ENV"] == "production"
    ensures LogsToConsole(LegacyLoadConfig(env).nodeEnv)
    ensures Config.LoadConfig(env).nodeEnv == "production"
    ensures !LogsToConsole(Some(Config.LoadConfig(env).nodeEnv))
  {
  }
}
