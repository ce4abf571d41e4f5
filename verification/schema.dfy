/**
 The settings API of schema.js: the GraphQL type definition generated from
 the configuration record and the resolver that serves it.

 The configuration arrives as the list `Object.entries(config)` gives (key
 order of the literal). The `camelcase` package is a parameter: nothing here
 depends on what it does to a key.
 */
module Schema {
  import opened JsValues
  import opened Strings
  import Config

  /** The keys `convertConfig` leaves out of the type (schema.js:39-46). */
  const IgnoredKeys: seq<string> := ["NODE_ENV", "LOG_LEVEL", "LOG_FILE", "DB_FILE", "API", "API_PORT"]

  // ---------------------------------------------------------------------------
  // `isNaN` on a string: the StringNumericLiteral grammar of ECMAScript

  predicate IsDigit(c: char)
  {
    '0' <= c <= '9'
  }

  /** Every character is a decimal digit (the empty string included). */
  predicate Digits(s: string)
  {
    forall i :: 0 <= i < |s| ==> IsDigit(s[i])
  }

  /** One or more characters of `alphabet`. */
  predicate DigitsIn(s: string, alphabet: set<char>)
  {
    |s| > 0 && forall i :: 0 <= i < |s| ==> s[i] in alphabet
  }

  /** `12`, `12.`, `12.5` or `.5`: digits with at most one point, and at
      least one digit. */
  predicate Mantissa(m: string)
  {
    var d := FirstOf(m, {'.'});
    if d == |m| then |m| > 0 && Digits(m)
    else |m| > 1 && Digits(m[..d]) && Digits(m[d + 1..])
  }

  /** What follows the `e` of an exponent: an optional sign and digits. */
  predicate Exponent(x: string)
  {
    if |x| > 0 && (x[0] == '+' || x[0] == '-') then |x| > 1 && Digits(x[1..])
    else |x| > 0 && Digits(x)
  }

  /** StrUnsignedDecimalLiteral: `Infinity`, or a mantissa with an optional
      exponent. */
  predicate UnsignedDecimal(u: string)
  {
    || u == "Infinity"
    || (var e := FirstOf(u, {'e', 'E'});
        if e == |u| then Mantissa(u) else Mantissa(u[..e]) && Exponent(u[e + 1..]))
  }

  /** StrDecimalLiteral: an unsigned decimal with an optional sign. */
  predicate DecimalLiteral(t: string)
  {
    if |t| > 0 && (t[0] == '+' || t[0] == '-') then UnsignedDecimal(t[1..]) else UnsignedDecimal(t)
  }

  /** NonDecimalIntegerLiteral: `0x`, `0o` or `0b` (either case) and digits of
      that base; no sign is allowed. */
  predicate NonDecimalLiteral(t: string)
  {
    && |t| > 2 && t[0] == '0'
    && (|| ((t[1] == 'x' || t[1] == 'X') && DigitsIn(t[2..], HexDigits))
        || ((t[1] == 'o' || t[1] == 'O') && DigitsIn(t[2..], {'0', '1', '2', '3', '4', '5', '6', '7'}))
        || ((t[1] == 'b' || t[1] == 'B') && DigitsIn(t[2..], {'0', '1'})))
  }

  const HexDigits: set<char> := {'0', '1', '2', '3', '4', '5', '6', '7', '8', '9',
                                 'a', 'b', 'c', 'd', 'e', 'f', 'A', 'B', 'C', 'D', 'E', 'F'}

  /** `!isNaN(s)`: `Number(s)` is a number exactly when `s`, with white space
      trimmed, is empty or a numeric literal. */
  predicate NumericString(s: string)
  {
    var t := Trim(s);
    t == "" || DecimalLiteral(t) || NonDecimalLiteral(t)
  }

  // ---------------------------------------------------------------------------
  // determineType

  /** The four GraphQL types a setting can get. */
  datatype SettingType = ListType | BooleanType | IntType | StringType

  /** The type as written into the schema. */
  function TypeName(t: SettingType): string
  {
    match t
    case ListType => "[String]"
    case BooleanType => "Boolean"
    case IntType => "Int"
    case StringType => "String"
  }

  /** `determineType` of schema.js:58-68: objects (arrays and `null`) first,
      then booleans, then whatever `isNaN` accepts as a number, else String.
      `undefined` converts to NaN and so is a String. */
  function DetermineType(v: JsValue): (r: SettingType)
    ensures r == ListType <==> IsObject(v)
    ensures r == BooleanType <==> v.Bool?
    ensures r == IntType <==> v.Num? || (v.Str? && NumericString(v.s))
    ensures r == StringType <==> v.Undefined? || (v.Str? && !NumericString(v.s))
  {
    if IsObject(v) then ListType
    else if v.Bool? then BooleanType
    else if v.Num? || (v.Str? && NumericString(v.s)) then IntType
    else StringType
  }

  /** A character that can occur in a numeric literal. */
  predicate IsNumeralChar(c: char)
  {
    IsDigit(c) || c in HexDigits || c in {'+', '-', '.', 'x', 'X', 'o', 'O', 'b', 'B', 'I', 'n', 'f', 'i', 't', 'y'}
  }

  lemma MantissaChars(m: string)
    requires Mantissa(m)
    ensures forall i :: 0 <= i < |m| ==> IsDigit(m[i]) || m[i] == '.'
  {
    var d := FirstOf(m, {'.'});
    if d < |m| {
      forall i | 0 <= i < |m| ensures IsDigit(m[i]) || m[i] == '.' {
        if i < d {
          assert m[..d][i] == m[i];
        } else if i > d {
          assert m[d + 1..][i - d - 1] == m[i];
        }
      }
    }
  }

  lemma UnsignedDecimalChars(u: string)
    requires UnsignedDecimal(u)
    ensures forall i :: 0 <= i < |u| ==> IsNumeralChar(u[i])
  {
    if u != "Infinity" {
      var e := FirstOf(u, {'e', 'E'});
      if e == |u| {
        MantissaChars(u);
      } else {
        MantissaChars(u[..e]);
        forall i | 0 <= i < |u| ensures IsNumeralChar(u[i]) {
          if i < e {
            assert u[..e][i] == u[i];
          } else if i > e {
            assert u[e + 1..][i - e - 1] == u[i];
          }
        }
      }
    }
  }

  /** Every character of a numeric literal is a digit, a sign, a point, a
      base or exponent letter, or a letter of `Infinity`. */
  lemma {:induction false} NumeralChars(s: string)
    ensures NumericString(s) ==> forall i :: 0 <= i < |Trim(s)| ==> IsNumeralChar(Trim(s)[i])
  {
    var t := Trim(s);
    if NumericString(s) && t != "" {
      if DecimalLiteral(t) {
        DecimalChars(t);
      } else {
        NonDecimalChars(t);
      }
    }
  }

  lemma DecimalChars(t: string)
    requires DecimalLiteral(t)
    ensures forall i :: 0 <= i < |t| ==> IsNumeralChar(t[i])
  {
    if |t| > 0 && (t[0] == '+' || t[0] == '-') {
      UnsignedDecimalChars(t[1..]);
      forall i | 1 <= i < |t| ensures IsNumeralChar(t[i]) {
        assert t[1..][i - 1] == t[i];
      }
    } else {
      UnsignedDecimalChars(t);
    }
  }

  lemma NonDecimalChars(t: string)
    requires NonDecimalLiteral(t)
    ensures forall i :: 0 <= i < |t| ==> IsNumeralChar(t[i])
  {
    forall i | 2 <= i < |t| ensures IsNumeralChar(t[i]) {
      assert t[2..][i - 2] == t[i];
    }
  }

  /** A value such as a webhook URL, whose trimmed form holds a `:`, is
      typed String. */
  lemma ColonIsString(s: string)
    requires ':' in Trim(s)
    ensures DetermineType(Str(s)) == StringType
  {
    ColonNotNumeral();
    NotNumeric(s, ':');
  }

  /** A string whose trimmed form holds a character that no numeral holds
      is not numeric. */
  lemma ColonNotNumeral()
    ensures !IsNumeralChar(':')
  {
  }

  lemma NotNumeric(s: string, c: char)
    requires c in Trim(s) && !IsNumeralChar(c)
    ensures !NumericString(s)
  {
    NumeralChars(s);
    var i :| 0 <= i < |Trim(s)| && Trim(s)[i] == c;
  }

  /** A non-empty string of decimal digits is typed Int. */
  lemma DigitStringIsInt(d: string)
    requires |d| > 0 && Digits(d)
    ensures DetermineType(Str(d)) == IntType
  {
    assert TrimStart(d) == d by {
      assert !IsJsSpace(d[0]);
    }
    assert TrimEnd(d) == d by {
      assert !IsJsSpace(d[|d| - 1]);
    }
    DigitsDecimal(d);
  }

  lemma DigitsDecimal(d: string)
    requires |d| > 0 && Digits(d)
    ensures DecimalLiteral(d)
  {
    NoStop(d, {'e', 'E'});
    NoStop(d, {'.'});
  }

  /** `FirstOf` finds nothing in a string without stops. */
  lemma {:induction false} NoStop(s: string, stops: set<char>)
    requires forall i :: 0 <= i < |s| ==> s[i] !in stops
    ensures FirstOf(s, stops) == |s|
    decreases |s|
  {
    if |s| > 0 {
      NoStop(s[1..], stops);
    }
  }

  /** `isNaN('')` is false, so an empty (or all-blank) value is typed Int. */
  lemma BlankIsInt(n: nat)
    ensures DetermineType(Str(seq(n, _ => ' '))) == IntType
  {
    var s := seq(n, _ => ' ');
    assert forall i :: 0 <= i < |s| ==> IsJsSpace(s[i]);
    assert Trim(s) == "";
  }

  /** White space around a value does not change its type. */
  lemma PaddingIgnored(s: string)
    ensures DetermineType(Str(" " + s + "\n")) == DetermineType(Str(s))
  {
    PaddedTrim(s);
    assert NumericString(" " + s + "\n") == NumericString(s);
  }

  lemma PaddedTrim(s: string)
    ensures Trim(" " + s + "\n") == Trim(s)
  {
    var p := " " + s + "\n";
    assert TrimStart(p) == TrimStart(s + "\n") by {
      assert p[1..] == s + "\n";
    }
    TrimEndOfNewline(TrimStart(s + "\n"), s);
  }

  /** Trimming `s + "\n"` gives the trim of `s`. */
  lemma TrimEndOfNewline(a: string, s: string)
    requires a == TrimStart(s + "\n")
    ensures TrimEnd(a) == Trim(s)
  {
    TrimStartSuffix(s, "\n");
    if TrimStart(s) == "" {
      assert TrimStart(s + "\n") == "";
    } else {
      assert a == TrimStart(s) + "\n";
      assert a[..|a| - 1] == TrimStart(s);
    }
  }

  /** Leading white space is stripped from the left part unless it is all
      white space. */
  lemma {:induction false} TrimStartSuffix(s: string, w: string)
    requires forall i :: 0 <= i < |w| ==> IsJsSpace(w[i])
    ensures TrimStart(s) != "" ==> TrimStart(s + w) == TrimStart(s) + w
    ensures TrimStart(s) == "" ==> TrimStart(s + w) == ""
    decreases |s|
  {
    if |s| == 0 {
      assert s + w == w;
      AllSpaceTrims(w);
    } else if IsJsSpace(s[0]) {
      assert (s + w)[1..] == s[1..] + w;
      TrimStartSuffix(s[1..], w);
    }
  }

  lemma {:induction false} AllSpaceTrims(w: string)
    requires forall i :: 0 <= i < |w| ==> IsJsSpace(w[i])
    ensures TrimStart(w) == ""
    decreases |w|
  {
    if |w| > 0 {
      AllSpaceTrims(w[1..]);
    }
  }

  // ---------------------------------------------------------------------------
  // convertConfig

  /** A key `convertConfig` leaves out. */
  predicate Ignored(key: string)
  {
    key in IgnoredKeys
  }

  /** The entries `convertConfig` keeps, in order. */
  function Kept(entries: seq<(string, JsValue)>): (r: seq<(string, JsValue)>)
    ensures |r| <= |entries|
  {
    if |entries| == 0 then []
    else
      var last := entries[|entries| - 1];
      Kept(entries[..|entries| - 1]) + (if Ignored(last.0) then [] else [last])
  }

  /** The kept entries are exactly the entries whose key is not ignored. */
  lemma {:induction false} KeptMembers(entries: seq<(string, JsValue)>)
    ensures forall e :: e in Kept(entries) <==> e in entries && !Ignored(e.0)
    decreases |entries|
  {
    if |entries| > 0 {
      var front := entries[..|entries| - 1];
      KeptMembers(front);
      assert entries == front + [entries[|entries| - 1]];
    }
  }

  /** Keeping commutes with concatenation, so the kept entries keep the order
      they had. */
  lemma {:induction false} KeptAppend(a: seq<(string, JsValue)>, b: seq<(string, JsValue)>)
    ensures Kept(a + b) == Kept(a) + Kept(b)
    decreases |b|
  {
    if |b| == 0 {
      assert a + b == a;
    } else {
      var b' := b[..|b| - 1];
      assert (a + b)[..|a + b| - 1] == a + b';
      KeptAppend(a, b');
    }
  }

  /** One `camelCase(key): Type` entry. */
  function FieldOf(e: (string, JsValue), camel: string -> string): string
  {
    camel(e.0) + ": " + TypeName(DetermineType(e.1))
  }

  /** The field string's entries, in the order the loop writes them. */
  function Fields(entries: seq<(string, JsValue)>, camel: string -> string): (r: seq<string>)
  {
    if |entries| == 0 then []
    else
      var last := entries[|entries| - 1];
      Fields(entries[..|entries| - 1], camel) + (if Ignored(last.0) then [] else [FieldOf(last, camel)])
  }

  /** There is one field per kept entry, and it is that entry's field. */
  lemma {:induction false} FieldsOfKept(entries: seq<(string, JsValue)>, camel: string -> string)
    ensures |Fields(entries, camel)| == |Kept(entries)|
    ensures forall i :: 0 <= i < |Kept(entries)| ==> Fields(entries, camel)[i] == FieldOf(Kept(entries)[i], camel)
    decreases |entries|
  {
    if |entries| > 0 {
      FieldsOfKept(entries[..|entries| - 1], camel);
    }
  }

  /** `xs` joined by `sep`, with no separator after the last. */
  function JoinWith(xs: seq<string>, sep: string): string
  {
    if |xs| == 0 then ""
    else if |xs| == 1 then xs[0]
    else JoinWith(xs[..|xs| - 1], sep) + sep + xs[|xs| - 1]
  }

  /** `xs` each followed by `, `. */
  function Terminated(xs: seq<string>): string
  {
    if |xs| == 0 then "" else Terminated(xs[..|xs| - 1]) + xs[|xs| - 1] + ", "
  }

  /** A terminated list is the joined list plus one separator. */
  lemma {:induction false} TerminatedIsJoined(xs: seq<string>)
    requires |xs| > 0
    ensures Terminated(xs) == JoinWith(xs, ", ") + ", "
    decreases |xs|
  {
    if |xs| > 1 {
      TerminatedIsJoined(xs[..|xs| - 1]);
    } else {
      assert xs[..0] == [];
    }
  }

  /** One more entry adds its field, unless its key is ignored. */
  lemma FieldsStep(entries: seq<(string, JsValue)>, i: nat, camel: string -> string)
    requires i < |entries|
    ensures Fields(entries[..i + 1], camel) ==
      Fields(entries[..i], camel) + (if Ignored(entries[i].0) then [] else [FieldOf(entries[i], camel)])
  {
    assert entries[..i + 1][..i] == entries[..i];
  }

  lemma TerminatedSnoc(xs: seq<string>, x: string)
    ensures Terminated(xs + [x]) == Terminated(xs) + x + ", "
  {
    assert (xs + [x])[..|xs|] == xs;
  }

  /** `convertConfig` of schema.js:38-56: the loop appends `field, ` for every
      kept entry, then the last two characters are sliced off. */
  method ConvertConfig(entries: seq<(string, JsValue)>, camel: string -> string) returns (str: string)
    ensures str == JoinWith(Fields(entries, camel), ", ")
    ensures Fields(entries, camel) == [] ==> str == ""
  {
    str := "";
    var i := 0;
    while i < |entries|
      invariant 0 <= i <= |entries|
      invariant str == Terminated(Fields(entries[..i], camel))
    {
      var key, value := entries[i].0, entries[i].1;
      FieldsStep(entries, i, camel);
      if !Ignored(key) {
        var field := camel(key) + ": " + TypeName(DetermineType(value));
        TerminatedSnoc(Fields(entries[..i], camel), field);
        assert Fields(entries[..i + 1], camel) == Fields(entries[..i], camel) + [field];
        str := str + field + ", ";
      } else {
        assert Fields(entries[..i + 1], camel) == Fields(entries[..i], camel);
      }
      i := i + 1;
    }
    assert entries[..i] == entries;
    var fs := Fields(entries, camel);
    if |fs| > 0 {
      TerminatedIsJoined(fs);
    }
    str := SliceTo(str, |str| - 2);
  }

  /** For the loaded configuration, the type has eight fields: the webhook
      URL, the channel list, the client id and the five switches; nothing of
      the environment, log, database or API settings. */
  lemma LoadedConfigFields(env: map<string, string>, camel: string -> string)
    ensures var fs := Fields(Config.ConfigEntries(Config.LoadConfig(env)), camel);
      && |fs| == 8
      && fs[1] == camel("TWITCH_CHANNELS") + ": " + "[String]"
      && fs[3] == camel("RESTRICT_CHANNELS") + ": " + "Boolean"
      && fs[7] == camel("RICH_EMBED") + ": " + "Boolean"
      && ("DISCORD_WEBHOOK_URL" !in env ==> fs[0] == camel("DISCORD_WEBHOOK_URL") + ": " + "String")
      && ("DISCORD_WEBHOOK_URL" in env && ':' in Trim(env["DISCORD_WEBHOOK_URL"]) ==>
            fs[0] == camel("DISCORD_WEBHOOK_URL") + ": " + "String")
      && ("TWITCH_CLIENT_ID" !in env ==> fs[2] == camel("TWITCH_CLIENT_ID") + ": " + "String")
  {
    var c := Config.LoadConfig(env);
    ConfigFields(c, camel);
    if "DISCORD_WEBHOOK_URL" in env && ':' in Trim(env["DISCORD_WEBHOOK_URL"]) {
      ColonIsString(env["DISCORD_WEBHOOK_URL"]);
    }
  }

  /** The eight fields of any configuration record, in the literal's order. */
  lemma ConfigFields(c: Config.Config, camel: string -> string)
    ensures var fs := Fields(Config.ConfigEntries(c), camel);
      && |fs| == 8
      && fs[0] == camel("DISCORD_WEBHOOK_URL") + ": " + TypeName(DetermineType(Config.OptionalStr(c.discordWebhookUrl)))
      && fs[1] == camel("TWITCH_CHANNELS") + ": " + "[String]"
      && fs[2] == camel("TWITCH_CLIENT_ID") + ": " + TypeName(DetermineType(Config.OptionalStr(c.twitchClientId)))
      && fs[3] == camel("RESTRICT_CHANNELS") + ": " + "Boolean"
      && fs[4] == camel("BROADCASTER_ONLY") + ": " + "Boolean"
      && fs[5] == camel("MODS_ONLY") + ": " + "Boolean"
      && fs[6] == camel("SUBS_ONLY") + ": " + "Boolean"
      && fs[7] == camel("RICH_EMBED") + ": " + "Boolean"
  {
    var es := Config.ConfigEntries(c);
    ConfigKeys();
    KeptOfConfig(es);
    FieldsOfKept(es, camel);
  }

  /** The kept entries of a configuration listed in the literal's order:
      all but the two leading, the fifth and the two trailing ones. */
  lemma KeptOfConfig(es: seq<(string, JsValue)>)
    requires |es| == 13
    requires Ignored(es[0].0) && Ignored(es[1].0) && Ignored(es[4].0) && Ignored(es[11].0) && Ignored(es[12].0)
    requires !Ignored(es[2].0) && !Ignored(es[3].0) && !Ignored(es[5].0) && !Ignored(es[6].0)
    requires !Ignored(es[7].0) && !Ignored(es[8].0) && !Ignored(es[9].0) && !Ignored(es[10].0)
    ensures Kept(es) == es[2..4] + es[5..11]
  {
    assert es[..0] == [];
    KeptRun(es, 0, 2, false);
    KeptRun(es, 2, 4, true);
    KeptRun(es, 4, 5, false);
    KeptRun(es, 5, 11, true);
    KeptRun(es, 11, 13, false);
    assert es[..13] == es;
  }

  /** A run of entries that are all kept (or all ignored) adds itself (or
      nothing). */
  lemma {:induction false} KeptRun(es: seq<(string, JsValue)>, i: nat, j: nat, kept: bool)
    requires i <= j <= |es|
    requires forall k :: i <= k < j ==> Ignored(es[k].0) != kept
    ensures Kept(es[..j]) == Kept(es[..i]) + (if kept then es[i..j] else [])
    decreases j - i
  {
    if i < j {
      KeptRun(es, i, j - 1, kept);
      KeptStep(es, j - 1);
      var before := Kept(es[..i]);
      if kept {
        assert !Ignored(es[j - 1].0);
        assert Kept(es[..j]) == (before + es[i..j - 1]) + [es[j - 1]];
        assert es[i..j] == es[i..j - 1] + [es[j - 1]];
      } else {
        assert Ignored(es[j - 1].0);
      }
    }
  }

  /** Which keys of the configuration literal are ignored. */
  lemma ConfigKeys()
    ensures Ignored("NODE_ENV") && Ignored("LOG_LEVEL") && Ignored("DB_FILE") && Ignored("API") && Ignored("API_PORT")
    ensures !Ignored("DISCORD_WEBHOOK_URL") && !Ignored("TWITCH_CHANNELS") && !Ignored("TWITCH_CLIENT_ID")
    ensures !Ignored("RESTRICT_CHANNELS") && !Ignored("BROADCASTER_ONLY") && !Ignored("MODS_ONLY")
    ensures !Ignored("SUBS_ONLY") && !Ignored("RICH_EMBED")
  {
    assert "MODS_ONLY"[0] != "LOG_LEVEL"[0];
    assert "SUBS_ONLY"[0] != "LOG_LEVEL"[0];
  }

  /** One more entry is kept unless its key is ignored. */
  lemma KeptStep(entries: seq<(string, JsValue)>, i: nat)
    requires i < |entries|
    ensures Kept(entries[..i + 1]) == Kept(entries[..i]) + (if Ignored(entries[i].0) then [] else [entries[i]])
  {
    assert entries[..i + 1][..i] == entries[..i];
  }

  // ---------------------------------------------------------------------------
  // buildTypeDefs, buildResolvers, initApi

  const SettingHeader := "\n  type Setting {\n    "
  const QueryFooter := "\n  }\n  \n  type Query {\n    settings: [Setting]\n  }\n"

  /** `buildTypeDefs` of schema.js:12-27: the field string inside the
      `Setting` type, followed by a query returning a list of settings. */
  method BuildTypeDefs(entries: seq<(string, JsValue)>, camel: string -> string) returns (typeDefs: string)
    ensures StartsWith(typeDefs, SettingHeader)
    ensures |typeDefs| >= |SettingHeader| + |QueryFooter|
    ensures typeDefs[|SettingHeader|..|typeDefs| - |QueryFooter|] == JoinWith(Fields(entries, camel), ", ")
    ensures typeDefs[|typeDefs| - |QueryFooter|..] == QueryFooter
  {
    var schemaString := ConvertConfig(entries, camel);
    typeDefs := SettingHeader + schemaString + QueryFooter;
  }

  /** The resolver map: `Query.settings` returns the configuration. */
  datatype Resolvers<C> = Resolvers(settings: () -> C)

  /** `buildResolvers` of schema.js:29-36. */
  function BuildResolvers<C>(config: C): (r: Resolvers<C>)
    ensures r.settings() == config
  {
    Resolvers(() => config)
  }

  /** What `initApi` (schema.js:5-10) hands to `makeExecutableSchema`. */
  method InitApi(c: Config.Config, camel: string -> string) returns (typeDefs: string, resolvers: Resolvers<Config.Config>)
    ensures StartsWith(typeDefs, SettingHeader)
    ensures |typeDefs| >= |SettingHeader| + |QueryFooter|
    ensures typeDefs[|SettingHeader|..|typeDefs| - |QueryFooter|]
         == JoinWith(Fields(Config.ConfigEntries(c), camel), ", ")
    ensures resolvers.settings() == c
  {
    typeDefs := BuildTypeDefs(Config.ConfigEntries(c), camel);
    resolvers := BuildResolvers(c);
  }
}
