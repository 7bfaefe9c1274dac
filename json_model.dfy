/** The decoded JSON values that `recursive_search` walks: what a JSON decoder
    hands back as nested dicts, lists and scalars. */
module JsonModel {

  /** A decoded JSON number with a fraction or exponent. Its IEEE 754 binary64
      bit pattern is kept as an opaque payload: the search never computes with it. */
  datatype Float = Float(bits: bv64)

  /** A decoded JSON value. An object keeps its members as (key, value) pairs
      in insertion order, which is the order a dict iterates them in. */
  datatype Json =
    | JNull
    | JBool(b: bool)
    | JInt(i: int)
    | JFloat(f: Float)
    | JStr(s: string)
    | JArray(items: seq<Json>)
    | JObject(members: seq<(string, Json)>)

  /** The test `isinstance(v, (int, float, str))`. A bool passes because bool
      is a subclass of int; null, lists and dicts do not. */
  predicate IsScalar(v: Json) {
    v.JBool? || v.JInt? || v.JFloat? || v.JStr?
  }

  /** How many members (direct children) a list or dict has; scalars and null have none. */
  function Arity(v: Json): nat {
    match v
    case JObject(ms) => |ms|
    case JArray(xs) => |xs|
    case _ => 0
  }

  /** The `j`-th child: the value of the `j`-th member of a dict, or the `j`-th list element. */
  function Child(v: Json, j: nat): Json
    requires j < Arity(v)
  {
    match v
    case JObject(ms) => ms[j].1
    case JArray(xs) => xs[j]
  }

  /** The number of dict keys anywhere in `v`: one per member of every dict,
      nested ones included. */
  function KeyCount(v: Json): nat
    decreases v, 1, 0
  {
    match v
    case JObject(ms) => MemberKeyCount(v, |ms|)
    case JArray(xs) => ItemKeyCount(v, |xs|)
    case _ => 0
  }

  /** The keys of the first `n` members of dict `v` and everything beneath them. */
  function MemberKeyCount(v: Json, n: nat): nat
    requires v.JObject? && n <= |v.members|
    decreases v, 0, n
  {
    if n == 0 then 0
    else
      MemberKeyCount(v, n - 1) + 1 + KeyCount(v.members[n - 1].1)
  }

  /** The keys beneath the first `n` elements of list `v`. */
  function ItemKeyCount(v: Json, n: nat): nat
    requires v.JArray? && n <= |v.items|
    decreases v, 0, n
  {
    if n == 0 then 0
    else
      ItemKeyCount(v, n - 1) + KeyCount(v.items[n - 1])
  }

  /** A key that cannot be confused with path syntax: not empty, and free of
      the '.' and '[' that `recursive_search` puts between path components. */
  predicate IsPlainKey(k: string) {
    k != [] && forall i :: 0 <= i < |k| ==> k[i] != '.' && k[i] != '['
  }

  /** Every dict in `v` has distinct keys (as a decoded dict always has),
      and all of them are plain. */
  ghost predicate PlainKeys(v: Json)
    decreases v
  {
    match v
    case JObject(ms) =>
      (forall i, j :: 0 <= i < j < |ms| ==> ms[i].0 != ms[j].0) &&
      (forall j :: 0 <= j < |ms| ==> IsPlainKey(ms[j].0)) &&
      (forall j :: 0 <= j < |ms| ==> PlainKeys(ms[j].1))
    case JArray(xs) => forall j :: 0 <= j < |xs| ==> PlainKeys(xs[j])
    case _ => true
  }
}
