/**
 `loadConfig` and `_generateChannelList` of utils.js, the corrected reading of
 the older bot's configuration literal: the configuration record read from the
 process environment, given here as a map from variable names
 to values (an absent key is an unset variable).
 */
module Config {
  import opened JsValues
  import opened Strings

  datatype Config = Config(
    nodeEnv: string,
    logLevel: string,
    discordWebhookUrl: Option<string>,
    twitchChannels: seq<string>,
    dbFile: string,
    twitchClientId: Option<string>,
    restrictChannels: bool,
    broadcasterOnly: bool,
    modsOnly: bool,
    subsOnly: bool,
    richEmbed: bool,
    api: bool,
    apiPort: JsValue)

  /** A channel as the chat client wants it: lower case with a `#` in front;
      a `#` already there is kept, not doubled. */
  function ChannelEntry(piece: string): (r: string)
    ensures |r| > 0 && r[0] == '#' && IsLower(r)
    ensures StartsWith(piece, "#") ==> r == Lower(piece)
    ensures !StartsWith(piece, "#") ==> r == "#" + Lower(piece)
  {
    LowerIsLower(piece);
    if StartsWith(piece, "#") then
      assert Lower(piece)[0] == LowerChar(piece[0]);
      Lower(piece)
    else "#" + Lower(piece)
  }

  /** `_generateChannelList` of utils.js:28-35: one entry per space-separated
      piece of the variable (unset reads as the empty string), in order. */
  function GenerateChannelList(channels: Option<string>): (r: seq<string>)
    ensures var pieces := Split(OrDefault(channels, ""), ' ');
      |r| == |pieces| && forall i :: 0 <= i < |r| ==> r[i] == ChannelEntry(pieces[i])
    ensures |r| >= 1
  {
    Entries(Split(OrDefault(channels, ""), ' '))
  }

  /** `pieces.map(ChannelEntry)`. */
  function Entries(pieces: seq<string>): (r: seq<string>)
    ensures |r| == |pieces| && forall i :: 0 <= i < |r| ==> r[i] == ChannelEntry(pieces[i])
  {
    if |pieces| == 0 then []
    else Entries(pieces[..|pieces| - 1]) + [ChannelEntry(pieces[|pieces| - 1])]
  }

  /** Every entry is a lower-case `#` name without spaces. */
  lemma ChannelListShape(channels: Option<string>)
    ensures forall e :: e in GenerateChannelList(channels) ==>
      |e| > 0 && e[0] == '#' && IsLower(e) && ' ' !in e
  {
    var pieces := Split(OrDefault(channels, ""), ' ');
    var r := GenerateChannelList(channels);
    forall i | 0 <= i < |r| ensures ' ' !in r[i] {
      LowerKeepsOthers(pieces[i], ' ');
    }
  }

  /** Lower-casing changes no character outside `A`-`Z`. */
  lemma LowerKeepsOthers(s: string, c: char)
    requires !('A' <= c <= 'Z') && !('a' <= c <= 'z')
    ensures c in Lower(s) <==> c in s
  {
    var l := Lower(s);
    if c in l {
      var i :| 0 <= i < |l| && l[i] == c;
      assert s[i] == c;
    }
    if c in s {
      var i :| 0 <= i < |s| && s[i] == c;
      assert l[i] == c;
    }
  }

  /** A string that is already lower case is its own lower case. */
  lemma LowerOfLower(s: string)
    requires IsLower(s)
    ensures Lower(s) == s
  {
  }

  /** Writing the list back as a space-separated variable and parsing it
      again gives the same list. */
  lemma {:induction false} ChannelListIdempotent(channels: Option<string>)
    ensures var r := GenerateChannelList(channels);
      GenerateChannelList(Some(Join(r, ' '))) == r
  {
    var r := GenerateChannelList(channels);
    ChannelListShape(channels);
    assert NoneContains(r, ' ') by {
      forall i | 0 <= i < |r| ensures ' ' !in r[i] {
        assert r[i] in r;
      }
    }
    SplitJoin(r, ' ');
    assert OrDefault(Some(Join(r, ' ')), "") == Join(r, ' ');
    EntriesFixed(r);
  }

  /** A list of entries maps to itself. */
  lemma EntriesFixed(r: seq<string>)
    requires forall e :: e in r ==> |e| > 0 && e[0] == '#' && IsLower(e)
    ensures Entries(r) == r
  {
    var again := Entries(r);
    forall i | 0 <= i < |r| ensures again[i] == r[i] {
      assert r[i] in r;
      EntryFixed(r[i]);
    }
  }

  /** An entry is its own entry. */
  lemma EntryFixed(e: string)
    requires |e| > 0 && e[0] == '#' && IsLower(e)
    ensures ChannelEntry(e) == e
  {
    assert e[..1] == "#";
    LowerOfLower(e);
  }

  /** `loadConfig` of utils.js:5-24. */
  function LoadConfig(env: map<string, string>): (c: Config)
    ensures c.nodeEnv == (if "NODE_ENV" in env && env["NODE_ENV"] != "" then env["NODE_ENV"] else "dev")
    ensures c.logLevel == (if "LOG_LEVEL" in env && env["LOG_LEVEL"] != "" then env["LOG_LEVEL"] else "error")
    ensures c.dbFile == (if "DB_FILE" in env && env["DB_FILE"] != "" then env["DB_FILE"] else "db.json")
    ensures c.discordWebhookUrl.Some? <==> "DISCORD_WEBHOOK_URL" in env
    ensures c.discordWebhookUrl.Some? ==> c.discordWebhookUrl.value == env["DISCORD_WEBHOOK_URL"]
    ensures c.twitchChannels == GenerateChannelList(EnvGet(env, "TWITCH_CHANNELS"))
    ensures c.twitchClientId.Some? <==> "TWITCH_CLIENT_ID" in env && env["TWITCH_CLIENT_ID"] != ""
    ensures c.twitchClientId.Some? ==> c.twitchClientId.value == env["TWITCH_CLIENT_ID"]
    ensures !c.restrictChannels <==> "RESTRICT_CHANNELS" in env && env["RESTRICT_CHANNELS"] == "false"
    ensures c.broadcasterOnly <==> "BROADCASTER_ONLY" in env && env["BROADCASTER_ONLY"] == "true"
    ensures c.modsOnly <==> "MODS_ONLY" in env && env["MODS_ONLY"] == "true"
    ensures c.subsOnly <==> "SUBS_ONLY" in env && env["SUBS_ONLY"] == "true"
    ensures c.richEmbed <==> "RICH_EMBED" in env && env["RICH_EMBED"] == "true"
    ensures c.api <==> "API" in env && env["API"] == "true"
    ensures c.apiPort == (if "API_PORT" in env && env["API_PORT"] != "" then Str(env["API_PORT"]) else Num(3000))
  {
    Config(
      TextSetting(env, "NODE_ENV", "dev"),
      TextSetting(env, "LOG_LEVEL", "error"),
      EnvGet(env, "DISCORD_WEBHOOK_URL"),
      GenerateChannelList(EnvGet(env, "TWITCH_CHANNELS")),
      TextSetting(env, "DB_FILE", "db.json"),
      if TextSetting(env, "TWITCH_CLIENT_ID", "") != "" then Some(env["TWITCH_CLIENT_ID"]) else None,
      !IsSetTo(env, "RESTRICT_CHANNELS", "false"),
      IsSetTo(env, "BROADCASTER_ONLY", "true"),
      IsSetTo(env, "MODS_ONLY", "true"),
      IsSetTo(env, "SUBS_ONLY", "true"),
      IsSetTo(env, "RICH_EMBED", "true"),
      IsSetTo(env, "API", "true"),
      var port := TextSetting(env, "API_PORT", "");
      if port != "" then Str(port) else Num(3000))
  }

  /** `env.KEY || dflt`: unset and empty both fall back. */
  function TextSetting(env: map<string, string>, key: string, dflt: string): (r: string)
  {
    if key in env && env[key] != "" then env[key] else dflt
  }

  /** `env.KEY === value`. */
  predicate IsSetTo(env: map<string, string>, key: string, value: string)
  {
    key in env && env[key] == value
  }

  /** With nothing set, every setting takes its default: channel restriction
      on, every other switch off, and the single channel `#`. */
  lemma EmptyEnvironment()
    ensures LoadConfig(map[]) == Config("dev", "error", None, ["#"], "db.json", None,
                                        true, false, false, false, false, false, Num(3000))
  {
    assert Split("", ' ') == [""];
    assert ChannelEntry("") == "#";
  }

  /** The configuration as `Object.entries` lists it: key order of the
      literal, `undefined` values included. */
  function ConfigEntries(c: Config): (r: seq<(string, JsValue)>)
    ensures |r| == 13
  {
    [("NODE_ENV", Str(c.nodeEnv)),
     ("LOG_LEVEL", Str(c.logLevel)),
     ("DISCORD_WEBHOOK_URL", OptionalStr(c.discordWebhookUrl)),
     ("TWITCH_CHANNELS", StrArray(c.twitchChannels)),
     ("DB_FILE", Str(c.dbFile)),
     ("TWITCH_CLIENT_ID", OptionalStr(c.twitchClientId)),
     ("RESTRICT_CHANNELS", Bool(c.restrictChannels)),
     ("BROADCASTER_ONLY", Bool(c.broadcasterOnly)),
     ("MODS_ONLY", Bool(c.modsOnly)),
     ("SUBS_ONLY", Bool(c.subsOnly)),
     ("RICH_EMBED", Bool(c.richEmbed)),
     ("API", Bool(c.api)),
     ("API_PORT", c.apiPort)]
  }

  function OptionalStr(x: Option<string>): JsValue
  {
    if x.Some? then Str(x.value) else Undefined
  }
}
