/**
 * The JavaScript values that the documentation renderer tests with `if (!x)`, `x && …` and
 * `x?.length > 0`.  Only what those tests can observe is kept: an array is its length, an
 * object is a plain record without a `length` member.
 */
module JsValue {

  import opened Wrappers

  datatype Value =
    | Undefined
    | Null
    | Bool(b: bool)
    | Num(x: real)
    | NaN
    | Str(s: string)
    | Arr(length: nat)
    | Obj

  /** JavaScript truthiness: everything except undefined, null, false, 0, NaN and "". */
  predicate Truthy(v: Value) {
    match v
    case Undefined => false
    case Null => false
    case Bool(b) => b
    case Num(x) => x != 0.0
    case NaN => false
    case Str(s) => s != ""
    case Arr(_) => true
    case Obj => true
  }

  /** The guard `v?.length > 0`: only strings and arrays have a length; for every other value the
      comparison is `undefined > 0`, which is false. */
  predicate HasItems(v: Value) {
    match v
    case Str(s) => |s| > 0
    case Arr(n) => n > 0
    case _ => false
  }

  /** A record read as `data[key]`; a missing key reads as undefined. */
  type Record = map<string, Value>

  /** `data[key]`. */
  function Get(data: Record, key: string): Value {
    if key in data then data[key] else Undefined
  }

  /** The guard `xs?.length > 0` on an optional array field of typed section data. */
  predicate HasEntries<T>(xs: Option<seq<T>>) {
    xs.Some? && |xs.value| > 0
  }

  /** The guard `s && …` on an optional string field: present and not "". */
  predicate TruthyText(s: Option<string>) {
    s.Some? && s.value != ""
  }
}
