/** Parsed JSON values and the few pieces of Python semantics the scraper
    relies on: `dict.get`, truthiness, `a or b` and list slicing. */
module PyJson {

  /** A value as `json.loads` returns it: None, bool, int, float, str,
      list or dict. Floats are modelled as exact reals. */
  datatype Json =
    | JNull
    | JBool(b: bool)
    | JInt(i: int)
    | JFloat(r: real)
    | JString(s: string)
    | JArray(items: seq<Json>)
    | JObject(fields: map<string, Json>)

  /** The outcome of evaluating a Python expression that may raise. The kind
      of exception is irrelevant here: every handler catches `Exception`. */
  datatype Raise<T> = Value(v: T) | Raised

  /** Python's `bool(x)`: None, False, zero and empty containers are false. */
  predicate Truthy(j: Json) {
    match j
    case JNull => false
    case JBool(b) => b
    case JInt(i) => i != 0
    case JFloat(r) => r != 0.0
    case JString(s) => s != []
    case JArray(xs) => xs != []
    case JObject(m) => m != map[]
  }

  /** `m.get(key, default)` on a dict already known to be a dict. */
  function GetOr(m: map<string, Json>, key: string, default: Json): Json {
    if key in m then m[key] else default
  }

  /** `m.get(key)` on a dict: None when the key is absent. */
  function Lookup(m: map<string, Json>, key: string): Json {
    GetOr(m, key, JNull)
  }

  /** `d.get(key, default)` on an arbitrary value: anything but a dict has no
      `get` attribute, so the call raises. */
  function Get(d: Json, key: string, default: Json): (r: Raise<Json>)
    ensures r.Value? <==> d.JObject?
    ensures r.Value? ==> r.v == GetOr(d.fields, key, default)
  {
    if d.JObject? then Value(GetOr(d.fields, key, default)) else Raised
  }

  /** Python's `a or b`: the right operand is evaluated, and so may raise,
      only when the left one is falsy; the result is an operand, not a bool. */
  function Or(a: Raise<Json>, b: Raise<Json>): (r: Raise<Json>)
    ensures a.Raised? ==> r.Raised?
    ensures a.Value? && Truthy(a.v) ==> r == a
    ensures a.Value? && !Truthy(a.v) ==> r == b
  {
    match a
    case Raised => Raised
    case Value(x) => if Truthy(x) then a else b
  }

  /** `a or b` yields one of its operands, and its truth value is the
      boolean or of theirs. */
  lemma OrIsOperand(a: Raise<Json>, b: Raise<Json>)
    ensures Or(a, b).Value? ==> Or(a, b) == a || Or(a, b) == b
    ensures Or(a, b).Value? ==>
      (Truthy(Or(a, b).v) <==> Truthy(a.v) || (b.Value? && Truthy(b.v)))
  {
  }

  function Min(a: nat, b: nat): nat {
    if a <= b then a else b
  }

  /** `xs[:n]`: slicing past the end is not an error in Python. */
  function Take(xs: seq<Json>, n: nat): (r: seq<Json>)
    ensures |r| == Min(n, |xs|)
    ensures forall i :: 0 <= i < |r| ==> r[i] == xs[i]
  {
    if |xs| <= n then xs else xs[..n]
  }
}
