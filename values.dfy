/**
 * The dynamically typed Python values that the metric functions receive as
 * `example`, `prediction` and their fields: a DSPy prediction or example is
 * an object with attributes, the pipelines' outputs are plain dicts.
 */
module Values {

  datatype Value =
    | VNone
    | VStr(s: string)
    | VDict(entries: map<string, Value>)
    /** An object with attributes, such as a `dspy.Prediction`; indexing it by a missing key raises `KeyError`. */
    | VObject(attrs: map<string, Value>)
    /** Any other value (a number, a list, ...), known only by its truthiness and whether it can be hashed. */
    | VOther(truthy: bool, hashable: bool)

  /** Python truthiness. */
  predicate Truthy(v: Value) {
    match v
    case VNone => false
    case VStr(s) => s != ""
    case VDict(e) => e != map[]
    case VObject(_) => true
    case VOther(t, _) => t
  }

  /** Whether `v` may be looked up in a set without raising `TypeError`. */
  predicate Hashable(v: Value) {
    match v
    case VDict(_) => false
    case VOther(_, h) => h
    case _ => true
  }

  /** The keys of a dict or the attributes of an object; nothing for any other value. */
  function Fields(v: Value): map<string, Value> {
    match v
    case VDict(e) => e
    case VObject(a) => a
    case _ => map[]
  }

  /**
   * `safe_get(obj, key, default)`: `None` gives the default, a dict is read
   * with `get`, an object by attribute and then by `obj[key]`, and every
   * failed lookup gives the default. A string or another value has none of
   * the attributes the metrics ask for and raises `TypeError` (caught) when
   * indexed by a string.
   */
  function SafeGet(obj: Value, key: string, default: Value): (r: Value)
    ensures key in Fields(obj) ==> r == Fields(obj)[key]
    ensures key !in Fields(obj) ==> r == default
    ensures obj.VNone? ==> r == default
  {
    match obj
    case VNone => default
    case VDict(e) => if key in e then e[key] else default
    case VObject(a) => if key in a then a[key] else default
    case VStr(_) => default
    case VOther(_, _) => default
  }

  /**
   * How `str(v)` and an f-string render `v`: a string is itself, `None` is
   * `"None"`; any other value is rendered by `pyStr`, which stands for
   * Python's `repr` of containers and objects.
   */
  function Format(pyStr: Value -> string, v: Value): (r: string)
    ensures v.VStr? ==> r == v.s
    ensures v.VNone? ==> r == "None"
  {
    match v
    case VStr(s) => s
    case VNone => "None"
    case _ => pyStr(v)
  }
}
