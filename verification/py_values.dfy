/** The dynamically typed values the photo selector passes around: judge
    replies, quality dictionaries and per-file records are Python dicts whose
    entries may hold anything JSON can express. */
module PyValues {

  /** A Python value as it appears in the selector's dictionaries. `Float`
      holds a `real`: IEEE rounding, NaN and infinities are not modelled. A key
      that is absent from a dict reads as `Null`, which is what `dict.get`
      returns for it. */
  datatype Value =
    | Null
    | Bool(b: bool)
    | Int(i: int)
    | Float(f: real)
    | Str(s: string)
    | List(items: seq<Value>)
    | Dict(entries: map<string, Value>)

  /** Python truthiness, `bool(v)`. */
  predicate Truthy(v: Value) {
    match v
    case Null => false
    case Bool(b) => b
    case Int(i) => i != 0
    case Float(f) => f != 0.0
    case Str(s) => s != ""
    case List(items) => items != []
    case Dict(entries) => entries != map[]
  }

  /** `isinstance(v, (int, float))`; `bool` is a subclass of `int` in Python,
      so booleans count as numbers. */
  predicate IsNumber(v: Value) {
    v.Bool? || v.Int? || v.Float?
  }

  /** `float(v)` for a number. */
  function AsReal(v: Value): real
    requires IsNumber(v)
  {
    match v
    case Bool(b) => if b then 1.0 else 0.0
    case Int(i) => i as real
    case Float(f) => f
  }

  /** `d.get(key)`. */
  function Get(d: map<string, Value>, key: string): (r: Value)
    ensures key !in d ==> r == Null
  {
    if key in d then d[key] else Null
  }

  /** `d.setdefault(key, default)`, as the dictionary it leaves behind. */
  function SetDefault(d: map<string, Value>, key: string, default: Value): (r: map<string, Value>)
    ensures key in r && r.Keys == d.Keys + {key}
    ensures key in d ==> r == d
    ensures key !in d ==> r[key] == default
    ensures forall k :: k in d ==> k in r && r[k] == d[k]
  {
    if key in d then d else d[key := default]
  }

  /** The result of `_clamp_score` (analyzer.py) and `_clamp01`
      (score_schema.py), which are the same function. */
  function Clamp01(x: real): (r: real)
    ensures 0.0 <= r <= 1.0
    ensures 0.0 <= x <= 1.0 ==> r == x
    ensures x < 0.0 ==> r == 0.0
    ensures x > 1.0 ==> r == 1.0
  {
    if x < 0.0 then 0.0 else if x > 1.0 then 1.0 else x
  }

  /** Clamping is monotone: a smaller input never clamps to a larger output. */
  lemma Clamp01Monotone(x: real, y: real)
    requires x <= y
    ensures Clamp01(x) <= Clamp01(y)
  {
  }
}
