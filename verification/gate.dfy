/**
 The permission gate at the top of the chat-message handler: the bot's own
 messages are dropped, then the broadcaster-only, mods-only and subs-only
 restrictions are checked in that order.
 */
module Gate {
  import opened JsValues
  import Strings

  /** The three restriction toggles. */
  datatype Restrictions = Restrictions(broadcasterOnly: bool, modsOnly: bool, subsOnly: bool)

  /** The sender's roles as the handler reads them from the message tags. */
  datatype Roles = Roles(isBroadcaster: bool, isMod: bool, isSub: bool)

  datatype Verdict =
    | Pass
    | RejectSelf
    | RejectNonBroadcaster
    | RejectNonMod
    | RejectNonSub

  /** One restriction, as a check on the sender's roles. */
  datatype Check = BroadcasterCheck | ModCheck | SubCheck

  predicate Enabled(c: Check, rs: Restrictions)
  {
    match c
    case BroadcasterCheck => rs.broadcasterOnly
    case ModCheck => rs.modsOnly
    case SubCheck => rs.subsOnly
  }

  /** What a restriction asks of the sender: mods-only also admits the
      broadcaster; subs-only has no broadcaster exemption. */
  predicate Satisfies(c: Check, roles: Roles)
  {
    match c
    case BroadcasterCheck => roles.isBroadcaster
    case ModCheck => roles.isMod || roles.isBroadcaster
    case SubCheck => roles.isSub
  }

  function Rejection(c: Check): Verdict
  {
    match c
    case BroadcasterCheck => RejectNonBroadcaster
    case ModCheck => RejectNonMod
    case SubCheck => RejectNonSub
  }

  /** `order[i]` is an enabled check the sender fails, reported as `v`. */
  predicate RejectedAt(order: seq<Check>, i: int, rs: Restrictions, roles: Roles, v: Verdict)
  {
    0 <= i < |order| && Enabled(order[i], rs) && !Satisfies(order[i], roles) && v == Rejection(order[i])
  }

  /** Run the enabled checks in the given order, stopping at the first one
      the sender fails. */
  function RunChecks(order: seq<Check>, rs: Restrictions, roles: Roles): (v: Verdict)
    ensures v == Pass <==> forall i :: 0 <= i < |order| && Enabled(order[i], rs) ==> Satisfies(order[i], roles)
    ensures v != Pass ==> exists i :: RejectedAt(order, i, rs, roles, v)
  {
    if |order| == 0 then Pass
    else if Enabled(order[0], rs) && !Satisfies(order[0], roles) then
      assert RejectedAt(order, 0, rs, roles, Rejection(order[0]));
      Rejection(order[0])
    else
      var v := RunChecks(order[1..], rs, roles);
      RejectionInTail(order, rs, roles, v);
      v
  }

  lemma RejectionInTail(order: seq<Check>, rs: Restrictions, roles: Roles, v: Verdict)
    requires |order| > 0
    requires v != Pass ==> exists i :: RejectedAt(order[1..], i, rs, roles, v)
    ensures v != Pass ==> exists i :: RejectedAt(order, i, rs, roles, v)
  {
    if v != Pass {
      var i :| RejectedAt(order[1..], i, rs, roles, v);
      assert RejectedAt(order, i + 1, rs, roles, v);
    }
  }

  /** The handler's order: broadcaster, mods, subs. */
  function SourceOrder(): seq<Check>
  {
    [BroadcasterCheck, ModCheck, SubCheck]
  }

  /** The gate of src/index.js:69-87. */
  function Decide(isSelf: bool, roles: Roles, rs: Restrictions): (v: Verdict)
    ensures isSelf ==> v == RejectSelf
    ensures v == Pass <==>
      && !isSelf
      && (rs.broadcasterOnly ==> roles.isBroadcaster)
      && (rs.modsOnly ==> roles.isMod || roles.isBroadcaster)
      && (rs.subsOnly ==> roles.isSub)
  {
    if isSelf then RejectSelf
    else
      var v := RunChecks(SourceOrder(), rs, roles);
      var o := SourceOrder();
      assert o[0] == BroadcasterCheck && o[1] == ModCheck && o[2] == SubCheck && |o| == 3;
      assert (forall i :: 0 <= i < |o| && Enabled(o[i], rs) ==> Satisfies(o[i], roles)) <==>
        ((Enabled(o[0], rs) ==> Satisfies(o[0], roles))
          && (Enabled(o[1], rs) ==> Satisfies(o[1], roles))
          && (Enabled(o[2], rs) ==> Satisfies(o[2], roles)));
      v
  }

  /** The outcome does not depend on the order of the checks: any ordering of
      the same checks passes exactly when the source order does. */
  lemma {:induction false} OrderIrrelevant(order: seq<Check>, rs: Restrictions, roles: Roles)
    requires multiset(order) == multiset(SourceOrder())
    ensures (RunChecks(order, rs, roles) == Pass) <==> (RunChecks(SourceOrder(), rs, roles) == Pass)
  {
    forall c | c in order ensures c in SourceOrder() {
      assert c in multiset(order);
    }
    forall c | c in SourceOrder() ensures c in order {
      assert c in multiset(SourceOrder());
    }
  }

  /** `v == '1'` with JavaScript's loose equality, case by case. */
  predicate LooseEqualsOne(v: JsValue)
  {
    match v
    case Undefined => false
    case Null => false
    case Bool(b) => b
    case Num(n) => n == 1
    case Str(s) => s == "1"
    case StrArray(items) => |items| == 1 && items[0] == "1"
  }

  predicate IsDigits(s: string)
  {
    |s| > 0 && forall i :: 0 <= i < |s| ==> '0' <= s[i] <= '9'
  }

  /** The decimal value of a string of digits, which is its `ToNumber`. */
  function DigitsValue(s: string): nat
    requires forall i :: 0 <= i < |s| ==> '0' <= s[i] <= '9'
  {
    if |s| == 0 then 0 else 10 * DigitsValue(s[..|s| - 1]) + (s[|s| - 1] as int - '0' as int)
  }

  /** `v == s` under IsLooselyEqual (section 7.2.14 of ECMA-262) for a string
      `s` of decimal digits: `undefined` and `null` equal only each other, a
      string is compared as is, a boolean and a number are compared as numbers
      with `ToNumber(s)`, and an array through its primitive value, the join of
      its elements with `,`. */
  predicate IsLooselyEqualToDigits(v: JsValue, s: string)
    requires IsDigits(s)
  {
    match v
    case Undefined => false
    case Null => false
    case Bool(b) => (if b then 1 else 0) == DigitsValue(s)
    case Num(n) => n == DigitsValue(s)
    case Str(t) => t == s
    case StrArray(items) => Strings.Join(items, ',') == s
  }

  /** The case table agrees with IsLooselyEqual against `'1'`. */
  lemma LooseEqualsOneReference(v: JsValue)
    ensures LooseEqualsOne(v) <==> IsLooselyEqualToDigits(v, "1")
  {
    assert DigitsValue("1") == 1 by {
      assert "1"[..0] == "";
    }
    if v.StrArray? {
      JoinIsOne(v.items);
    }
  }

  /** Only the one-element array `['1']` joins to `'1'`. */
  lemma JoinIsOne(items: seq<string>)
    ensures Strings.Join(items, ',') == "1" <==> |items| == 1 && items[0] == "1"
  {
    if |items| >= 2 {
      var j := Strings.Join(items, ',');
      assert j == items[0] + [','] + Strings.Join(items[1..], ',');
      if |items[0]| == 0 {
        assert j[0] == ',';
      } else {
        assert |j| >= 2;
      }
    }
  }

  /** The old client's `userstate`: `badges` may be missing; `mod` and
      `subscriber` are read for truthiness. */
  datatype Userstate = Userstate(badgeBroadcaster: JsValue, mod: JsValue, subscriber: JsValue)

  /** `_.get(userstate, '[badges].broadcaster') === '1'` and the truthiness of
      `mod` and `subscriber`. The strict comparison admits only the string
      `'1'`, a subset of what the newer bot's loose one admits. */
  function LegacyRoles(u: Userstate): (roles: Roles)
    ensures roles.isBroadcaster <==> u.badgeBroadcaster == Str("1")
    ensures roles.isBroadcaster ==> IsLooselyEqualToDigits(u.badgeBroadcaster, "1")
    ensures roles.isMod <==> u.mod !in FalsyValues
    ensures roles.isSub <==> u.subscriber !in FalsyValues
  {
    TruthyIsToBoolean(u.mod);
    TruthyIsToBoolean(u.subscriber);
    Roles(u.badgeBroadcaster == Str("1"), Truthy(u.mod), Truthy(u.subscriber))
  }

  /** The gate of index.js:104-121: the same decision over the old client's
      roles. */
  function LegacyDecide(isSelf: bool, u: Userstate, rs: Restrictions): (v: Verdict)
    ensures v == Pass <==>
      && !isSelf
      && (rs.broadcasterOnly ==> u.badgeBroadcaster == Str("1"))
      && (rs.modsOnly ==> Truthy(u.mod) || u.badgeBroadcaster == Str("1"))
      && (rs.subsOnly ==> Truthy(u.subscriber))
  {
    Decide(isSelf, LegacyRoles(u), rs)
  }

  /** A broadcaster badge given as the number 1 rather than the string '1'
      does not count in the old gate's strict comparison. */
  lemma LegacyBroadcasterNeedsString()
    ensures LegacyDecide(false, Userstate(Num(1), Bool(false), Bool(false)),
                         Restrictions(true, false, false)) == RejectNonBroadcaster
  {
  }
}
