/** Attribute normalisation: how one property value becomes an attribute
    string or nothing, and how an element's properties fill its attributes. */
module Attributes {
  import opened Trees
  import opened Schemas

  /** The values the attribute loop skips (`continue`s on), as the current
      version tests them: NaN, a falsy value on a boolean attribute, `false`,
      `null` and `undefined`. */
  predicate Drops(v: Value, info: Info) {
    (v.Num? && v.n.NaN?) || (!Truthy(v) && info.boolean) || v == Bool(false) || v.Null? || v.Undefined?
  }

  /** The same test as the older version writes it: nullish, false, not
      equal to itself, or falsy on a known boolean attribute. */
  predicate LegacyDrops(v: Value, info: Info) {
    (v.Undefined? || v.Null?) || v == Bool(false) || SelfUnequal(v) || (!Truthy(v) && info.boolean)
  }

  /** Is the value unequal to itself? Only NaN is. */
  predicate SelfUnequal(v: Value) {
    v.Num? && v.n.NaN?
  }

  /** The attribute string of a value that survives: `''` for `true` and for
      a boolean attribute, a comma or space join for an array, `String(value)`
      for a number, the string itself otherwise. */
  function Normalized(env: Env, v: Value, info: Info): string
    requires !Drops(v, info)
  {
    if v == Bool(true) || info.boolean then ""
    else if v.Arr? then (if info.commaSeparated then env.commas(v.items) else env.spaces(v.items))
    else if v.Num? then env.numberToString(v.n)
    else v.s
  }

  /** What one property contributes: nothing, or a string. */
  function AttributeValue(env: Env, v: Value, info: Info): (r: Option<string>)
    // the only falsy values that survive are '' and 0, and only on non-boolean attributes
    ensures r.None? <==> !Truthy(v) && (info.boolean || !(v == Str("") || v == Num(Finite(0.0))))
    ensures r.Some? && (v == Bool(true) || info.boolean) ==> r.value == ""
    ensures r.Some? && !info.boolean && v.Arr? ==>
      r.value == if info.commaSeparated then env.commas(v.items) else env.spaces(v.items)
    ensures r.Some? && !info.boolean && v.Num? ==> r.value == env.numberToString(v.n)
    ensures !info.boolean && v.Str? ==> r == Some(v.s)
  {
    if Drops(v, info) then None else Some(Normalized(env, v, info))
  }

  /** The attribute (name, string) one property writes, if any. */
  function Emitted(env: Env, schema: Space, p: (string, Value)): Option<(string, string)> {
    var info := env.find(schema, p.0);
    match AttributeValue(env, p.1, info)
    case None => None
    case Some(s) => Some((info.attribute, s))
  }

  /** Does property `p` write attribute `k`? */
  predicate Writes(env: Env, schema: Space, p: (string, Value), k: string) {
    Emitted(env, schema, p).Some? && Emitted(env, schema, p).value.0 == k
  }

  /** The attributes after the loop has processed `ps` in order, starting
      from `attrs`, each surviving property storing its string under its
      canonical name. The loop only adds or overwrites, never removes. */
  function Apply(env: Env, schema: Space, ps: seq<(string, Value)>, attrs: map<string, string>): (r: map<string, string>)
    ensures attrs.Keys <= r.Keys
  {
    if ps == [] then attrs
    else
      var before := Apply(env, schema, ps[..|ps| - 1], attrs);
      match Emitted(env, schema, ps[|ps| - 1])
      case None => before
      case Some(kv) => before[kv.0 := kv.1]
  }

  /** The attributes are the initial ones plus those some property writes. */
  lemma {:induction false} ApplyKeys(env: Env, schema: Space, ps: seq<(string, Value)>, attrs: map<string, string>, k: string)
    ensures k in Apply(env, schema, ps, attrs) <==> k in attrs || exists i :: 0 <= i < |ps| && Writes(env, schema, ps[i], k)
  {
    if ps != [] {
      var prefix := ps[..|ps| - 1];
      assert forall j :: 0 <= j < |prefix| ==> prefix[j] == ps[j];
      ApplyKeys(env, schema, prefix, attrs, k);
      if Writes(env, schema, ps[|ps| - 1], k) {
        assert k in Apply(env, schema, ps, attrs);
      }
    }
  }

  /** The loop processes one more property. */
  lemma ApplyStep(env: Env, schema: Space, ps: seq<(string, Value)>, attrs: map<string, string>, i: nat)
    requires i < |ps|
    ensures Apply(env, schema, ps[..i + 1], attrs) ==
      match Emitted(env, schema, ps[i])
      case None => Apply(env, schema, ps[..i], attrs)
      case Some(kv) => Apply(env, schema, ps[..i], attrs)[kv.0 := kv.1]
  {
    assert ps[..i + 1][..i] == ps[..i];
  }

  /** Last write wins: an attribute holds the string of the last property
      that writes it. */
  lemma {:induction false} LastWriteWins(env: Env, schema: Space, ps: seq<(string, Value)>, attrs: map<string, string>, i: nat)
    requires i < |ps| && Emitted(env, schema, ps[i]).Some?
    requires forall j :: i < j < |ps| ==> !Writes(env, schema, ps[j], Emitted(env, schema, ps[i]).value.0)
    ensures var kv := Emitted(env, schema, ps[i]).value;
      kv.0 in Apply(env, schema, ps, attrs) && Apply(env, schema, ps, attrs)[kv.0] == kv.1
  {
    var last := |ps| - 1;
    var prefix := ps[..last];
    if i < last {
      assert forall j :: 0 <= j < last ==> prefix[j] == ps[j];
      LastWriteWins(env, schema, prefix, attrs, i);
      assert !Writes(env, schema, ps[last], Emitted(env, schema, ps[i]).value.0);
    }
  }

  /** An attribute no property writes keeps its initial value, or stays absent. */
  lemma {:induction false} Untouched(env: Env, schema: Space, ps: seq<(string, Value)>, attrs: map<string, string>, k: string)
    requires forall j :: 0 <= j < |ps| ==> !Writes(env, schema, ps[j], k)
    ensures k in Apply(env, schema, ps, attrs) <==> k in attrs
    ensures k in attrs ==> Apply(env, schema, ps, attrs)[k] == attrs[k]
  {
    if ps != [] {
      var prefix := ps[..|ps| - 1];
      assert forall j :: 0 <= j < |prefix| ==> prefix[j] == ps[j];
      Untouched(env, schema, prefix, attrs, k);
    }
  }

  /** Both versions skip exactly the same values. */
  lemma LegacyDropsAgree(v: Value, info: Info)
    ensures LegacyDrops(v, info) <==> Drops(v, info)
  {
  }
}
