/**
 * The part of Joi the validators use, as a schema interpreter. A schema is a
 * `Joi.object({...})`: an ordered list of keys, each with a rule. Validation
 * (with Joi's defaults: abort at the first error, convert numeric text, no
 * unknown keys, no empty strings) checks the keys in schema order, then
 * rejects any key the schema does not name.
 */
module Joi {
  import opened Base
  import opened Js

  /** A textual format check: none, `.email()`, or `.regex(/^[0-9a-fA-F]{24}$/)`. */
  datatype Format = Plain | Email | HexObjectId

  /** The rule attached to one key. */
  datatype Kind =
      /** `Joi.string()` with `.min(min)`, an optional `.max(max)` and a format */
    | Text(min: nat, max: Option<nat>, format: Format)
      /** `Joi.number()` with an optional `.min(least)` and an optional `.less(Joi.ref(lessThan))` */
    | Number(least: Option<real>, lessThan: Option<string>)
      /** `Joi.array().items(Joi.string().min(itemMin).max(itemMax))` */
    | TextList(itemMin: nat, itemMax: nat)
      /** `Joi.object({...})` */
    | Record(keys: seq<Key>)

  /** One key of an object schema: `.required()` and `.allow(null)` are the two flags. */
  datatype Key = Key(name: string, kind: Kind, required: bool, nullable: bool)

  /** Accepted, or rejected at the key path `path` (the path of an object that holds an unknown key). */
  datatype Verdict = Pass | Reject(path: seq<string>)

  predicate IsHexDigit(c: char)
  {
    ('0' <= c <= '9') || ('a' <= c <= 'f') || ('A' <= c <= 'F')
  }

  /** The text matches `/^[0-9a-fA-F]{24}$/`. */
  predicate IsHex24(s: string)
  {
    |s| == 24 && forall i :: 0 <= i < |s| ==> IsHexDigit(s[i])
  }

  /** A string accepted by `Joi.string().min(min).max(max)` with the format: never empty (Joi's default). */
  predicate TextOk(min: nat, max: Option<nat>, format: Format, s: string, isEmail: string -> bool)
  {
    && s != ""
    && min <= |s|
    && (max.Some? ==> |s| <= max.value)
    && match format
       case Plain => true
       case Email => isEmail(s)
       case HexObjectId => IsHex24(s)
  }

  /** `Number.MAX_SAFE_INTEGER`, 2^53 - 1. */
  const MaxSafeInteger: real := 9007199254740991.0

  /** Within the range `Joi.number()` accepts without its `number.unsafe` error. */
  predicate IsSafeNumber(n: real)
  {
    -MaxSafeInteger <= n <= MaxSafeInteger
  }

  /** What a non-object rule accepts for a present, non-allowed-null value; `siblings` resolves `Joi.ref`. */
  predicate LeafOk(kind: Kind, v: JsValue, siblings: Body, isEmail: string -> bool)
  {
    match kind
    case Text(min, max, format) => v.Str? && TextOk(min, max, format, v.s, isEmail)
    case Number(least, lessThan) =>
      && AsNumber(v).Some?
      && IsSafeNumber(AsNumber(v).value)
      && (least.Some? ==> AsNumber(v).value >= least.value)
      && (lessThan.Some? ==>
            var limit := AsNumber(Get(siblings, lessThan.value));
            limit.Some? && AsNumber(v).value < limit.value)
    case TextList(itemMin, itemMax) =>
      && v.Arr?
      && forall i :: 0 <= i < |v.items| ==>
           v.items[i].Str? && TextOk(itemMin, Some(itemMax), Plain, v.items[i].s, isEmail)
    case Record(_) => false
  }

  function Names(keys: seq<Key>): set<string>
  {
    set i | 0 <= i < |keys| :: keys[i].name
  }

  function Under(name: string, v: Verdict): Verdict
  {
    match v
    case Pass => Pass
    case Reject(p) => Reject([name] + p)
  }

  /** `schema.validate(obj)`: the first failing key in schema order, else an unknown key, else Pass. */
  function Validate(keys: seq<Key>, obj: Body, isEmail: string -> bool): Verdict
    decreases keys, 2
  {
    match CheckKeys(keys, obj, isEmail)
    case Reject(p) => Reject(p)
    case Pass => if obj.Keys <= Names(keys) then Pass else Reject([])
  }

  /** The verdict on the keys of the schema alone, in order. */
  function CheckKeys(keys: seq<Key>, obj: Body, isEmail: string -> bool): Verdict
    decreases keys, 1
  {
    if keys == [] then Pass
    else
      var here := KeyVerdict(keys, 0, obj, isEmail);
      if here.Reject? then here else CheckKeys(keys[1..], obj, isEmail)
  }

  /** The verdict on the one key `keys[i]`. */
  function KeyVerdict(keys: seq<Key>, i: nat, obj: Body, isEmail: string -> bool): Verdict
    requires i < |keys|
    decreases keys, 0, i
  {
    var k := keys[i];
    var v := Get(obj, k.name);
    if v == Undefined then (if k.required then Reject([k.name]) else Pass)
    else if v == Null && k.nullable then Pass
    else match k.kind
      case Record(sub) => if v.Obj? then Under(k.name, Validate(sub, v.fields, isEmail)) else Reject([k.name])
      case _ => if LeafOk(k.kind, v, obj, isEmail) then Pass else Reject([k.name])
  }

  /** The declarative reading of a schema: every key's rule holds and no other key is present. */
  predicate Accepts(keys: seq<Key>, obj: Body, isEmail: string -> bool)
    decreases keys, 2
  {
    && (forall i :: 0 <= i < |keys| ==> KeyAccepts(keys, i, obj, isEmail))
    && obj.Keys <= Names(keys)
  }

  /** The rule of `keys[i]` holds in `obj`: absent only if optional, null only if allowed. */
  predicate KeyAccepts(keys: seq<Key>, i: nat, obj: Body, isEmail: string -> bool)
    requires i < |keys|
    decreases keys, 0, i
  {
    var k := keys[i];
    var v := Get(obj, k.name);
    if v == Undefined then !k.required
    else if v == Null && k.nullable then true
    else match k.kind
      case Record(sub) => v.Obj? && Accepts(sub, v.fields, isEmail)
      case _ => LeafOk(k.kind, v, obj, isEmail)
  }

  /**
   * Validation passes exactly when the declarative reading holds; when it fails on a
   * key, every earlier key of the schema holds and that key does not; when it fails
   * on the object itself, every key holds and an unknown key is present.
   */
  lemma {:induction false} ValidateMeaning(keys: seq<Key>, obj: Body, isEmail: string -> bool)
    ensures Validate(keys, obj, isEmail) == Pass ==> Accepts(keys, obj, isEmail)
    ensures Accepts(keys, obj, isEmail) ==> Validate(keys, obj, isEmail) == Pass
    ensures Validate(keys, obj, isEmail) == Reject([]) ==>
      (forall i :: 0 <= i < |keys| ==> KeyAccepts(keys, i, obj, isEmail)) && !(obj.Keys <= Names(keys))
    ensures Validate(keys, obj, isEmail).Reject? && Validate(keys, obj, isEmail).path != [] ==>
      exists i :: 0 <= i < |keys| && keys[i].name == Validate(keys, obj, isEmail).path[0]
        && !KeyAccepts(keys, i, obj, isEmail)
        && forall j :: 0 <= j < i ==> KeyAccepts(keys, j, obj, isEmail)
    decreases keys, 2
  {
    var at := CheckKeysMeaning(keys, obj, isEmail);
  }

  /** `at` is the index of the key that CheckKeys rejects, if it rejects one. */
  lemma {:induction false} CheckKeysMeaning(keys: seq<Key>, obj: Body, isEmail: string -> bool) returns (at: nat)
    ensures CheckKeys(keys, obj, isEmail) == Pass ==> forall i :: 0 <= i < |keys| ==> KeyAccepts(keys, i, obj, isEmail)
    ensures (forall i :: 0 <= i < |keys| ==> KeyAccepts(keys, i, obj, isEmail)) ==> CheckKeys(keys, obj, isEmail) == Pass
    ensures CheckKeys(keys, obj, isEmail).Reject? ==>
      && CheckKeys(keys, obj, isEmail).path != []
      && at < |keys| && keys[at].name == CheckKeys(keys, obj, isEmail).path[0]
      && !KeyAccepts(keys, at, obj, isEmail)
      && forall j :: 0 <= j < at ==> KeyAccepts(keys, j, obj, isEmail)
    decreases keys, 1
  {
    at := 0;
    if keys == [] {
      assert CheckKeys(keys, obj, isEmail) == Pass;
    } else {
      KeyVerdictMeaning(keys, 0, obj, isEmail);
      var later := CheckKeysMeaning(keys[1..], obj, isEmail);
      forall i | 1 <= i < |keys|
        ensures KeyAccepts(keys, i, obj, isEmail) == KeyAccepts(keys[1..], i - 1, obj, isEmail)
      {
        ShiftKeyAccepts(keys, i, obj, isEmail);
      }
      forall j | 0 <= j < |keys| - 1
        ensures KeyAccepts(keys[1..], j, obj, isEmail) == KeyAccepts(keys, j + 1, obj, isEmail)
      {
        ShiftKeyAccepts(keys, j + 1, obj, isEmail);
      }
      if KeyAccepts(keys, 0, obj, isEmail) {
        assert KeyVerdict(keys, 0, obj, isEmail) == Pass;
        assert CheckKeys(keys, obj, isEmail) == CheckKeys(keys[1..], obj, isEmail);
        if CheckKeys(keys[1..], obj, isEmail) == Pass {
          assert forall i :: 0 <= i < |keys| - 1 ==> KeyAccepts(keys[1..], i, obj, isEmail);
          assert forall i :: 0 <= i < |keys| ==> KeyAccepts(keys, i, obj, isEmail);
        }
        at := later + 1;
        if CheckKeys(keys, obj, isEmail).Reject? {
          forall j | 0 <= j < at ensures KeyAccepts(keys, j, obj, isEmail) {
            if j > 0 { assert KeyAccepts(keys[1..], j - 1, obj, isEmail); }
          }
        }
      } else {
        assert CheckKeys(keys, obj, isEmail) == KeyVerdict(keys, 0, obj, isEmail);
      }
    }
  }

  lemma {:induction false} KeyVerdictMeaning(keys: seq<Key>, i: nat, obj: Body, isEmail: string -> bool)
    requires i < |keys|
    ensures KeyVerdict(keys, i, obj, isEmail) == Pass ==> KeyAccepts(keys, i, obj, isEmail)
    ensures KeyAccepts(keys, i, obj, isEmail) ==> KeyVerdict(keys, i, obj, isEmail) == Pass
    ensures KeyVerdict(keys, i, obj, isEmail).Reject? ==>
      KeyVerdict(keys, i, obj, isEmail).path != [] && KeyVerdict(keys, i, obj, isEmail).path[0] == keys[i].name
    decreases keys, 0, i
  {
    var k := keys[i];
    var v := Get(obj, k.name);
    if v != Undefined && !(v == Null && k.nullable) && k.kind.Record? && v.Obj? {
      ValidateMeaning(k.kind.keys, v.fields, isEmail);
    }
  }

  lemma ShiftKeyAccepts(keys: seq<Key>, i: nat, obj: Body, isEmail: string -> bool)
    requires 1 <= i < |keys|
    ensures KeyAccepts(keys, i, obj, isEmail) == KeyAccepts(keys[1..], i - 1, obj, isEmail)
  {
    assert keys[1..][i - 1] == keys[i];
  }

  /** The email check supplied to schemas that have no `.email()` rule (it is never consulted). */
  predicate NoEmail(s: string)
  {
    false
  }

  /** A key that is absent, when optional, or that holds a text the rule `Text(min, max, format)` accepts. */
  predicate TextField(obj: Body, name: string, required: bool, min: nat, max: Option<nat>, format: Format, isEmail: string -> bool)
  {
    var v := Get(obj, name);
    if v == Undefined then !required else v.Str? && TextOk(min, max, format, v.s, isEmail)
  }

  /** A key that is absent, when optional, or null, when allowed, or that holds a number (or numeric text) the rule accepts. */
  predicate NumberField(obj: Body, name: string, required: bool, nullable: bool, least: Option<real>, lessThan: Option<string>)
  {
    var v := Get(obj, name);
    if v == Undefined then !required
    else if v == Null && nullable then true
    else LeafOk(Number(least, lessThan), v, obj, NoEmail)
  }

  /** A key that is absent, when optional, or that holds an array of texts of `itemMin`..`itemMax` characters. */
  predicate TextListField(obj: Body, name: string, required: bool, itemMin: nat, itemMax: nat)
  {
    var v := Get(obj, name);
    if v == Undefined then !required
    else v.Arr? && forall i :: 0 <= i < |v.items| ==>
      v.items[i].Str? && TextOk(itemMin, Some(itemMax), Plain, v.items[i].s, NoEmail)
  }
}
