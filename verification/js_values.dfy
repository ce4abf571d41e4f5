/**
 The few JavaScript value shapes the bot's code inspects: `undefined`, `null`,
 booleans, numbers, strings and string arrays, together with JavaScript's
 truthiness and the way a template literal renders a possibly-undefined string.
 */
module JsValues {

  /** Some/None, used wherever the source may hold `undefined`. */
  datatype Option<+T> = None | Some(value: T)

  /** A configuration or tag value as JavaScript sees it. Numbers are integers
      here: no value the bot reads is fractional or NaN. */
  datatype JsValue =
    | Undefined
    | Null
    | Bool(b: bool)
    | Num(n: int)
    | Str(s: string)
    | StrArray(items: seq<string>)

  /** JavaScript truthiness: `undefined`, `null`, `false`, `0` and `''` are falsy. */
  predicate Truthy(v: JsValue)
  {
    match v
    case Undefined => false
    case Null => false
    case Bool(b) => b
    case Num(n) => n != 0
    case Str(s) => s != ""
    case StrArray(_) => true
  }

  /** The values ToBoolean maps to `false` (section 7.1.2 of ECMA-262), as far
      as this model has them (`NaN` and `-0` are outside its integers). */
  const FalsyValues: set<JsValue> := {Undefined, Null, Bool(false), Num(0), Str("")}

  /** Truthiness is exactly "not one of the falsy values". */
  lemma TruthyIsToBoolean(v: JsValue)
    ensures Truthy(v) <==> v !in FalsyValues
  {
  }

  /** `typeof v === 'object'`: arrays and `null` are objects. */
  predicate IsObject(v: JsValue)
  {
    v.Null? || v.StrArray?
  }

  /** `${x}` for a string that may be `undefined`. */
  function Render(x: Option<string>): (r: string)
    ensures x.Some? ==> r == x.value
    ensures x.None? ==> r == "undefined"
  {
    match x
    case Some(s) => s
    case None => "undefined"
  }

  /** The lookup of an environment variable: unset is `undefined`. */
  function EnvGet(env: map<string, string>, key: string): (r: Option<string>)
    ensures r.Some? <==> key in env
    ensures r.Some? ==> r.value == env[key]
  {
    if key in env then Some(env[key]) else None
  }

  /** `env.X || dflt` for a string default: unset and empty both fall back. */
  function OrDefault(x: Option<string>, dflt: string): (r: string)
    ensures x.Some? && x.value != "" ==> r == x.value
    ensures x.None? || x.value == "" ==> r == dflt
  {
    match x
    case Some(s) => if s != "" then s else dflt
    case None => dflt
  }
}
