/** Option, Result and the exceptions the modelled Python code can raise. */
module Basics {

  datatype Option<+T> = None | Some(value: T)

  /** The Python exceptions that reach a caller of the modelled code. */
  datatype Error =
    | ValidationError   // pydantic refused a field value or a missing required field
    | TypeError         // an unhashable value used with `in` on a set, or a non-iterable iterated
    | MissingBlackboard // the profiler pipeline was started without prior research
    | KeyError          // a column of a data frame that is not there
    | AttributeError    // a string method called on a missing CSV cell (`None`), or `.str` on a non-text column

  datatype Result<+T> = Ok(value: T) | Err(error: Error)

  /** Python's `x or default` for an optional string: None and "" are falsy. */
  function OrDefault(x: Option<string>, default: string): (r: string)
    ensures x.Some? && x.value != "" ==> r == x.value
    ensures (x.None? || x.value == "") ==> r == default
  {
    if x.Some? && x.value != "" then x.value else default
  }

  /** Truthiness of an optional string. */
  predicate TruthyText(x: Option<string>) {
    x.Some? && x.value != ""
  }

  /** The elements of `s` that satisfy `p`, in their order in `s`. */
  function Filter<T>(s: seq<T>, p: T -> bool): (r: seq<T>)
    ensures |r| <= |s|
    ensures forall i :: 0 <= i < |r| ==> r[i] in s && p(r[i])
    ensures forall i :: 0 <= i < |s| && p(s[i]) ==> s[i] in r
    decreases |s|
  {
    if s == [] then []
    else Filter(s[..|s| - 1], p) + (if p(s[|s| - 1]) then [s[|s| - 1]] else [])
  }

  /** An element is kept exactly when it occurs and satisfies `p`. */
  lemma FilterMembers<T>(s: seq<T>, p: T -> bool, x: T)
    ensures x in Filter(s, p) <==> x in s && p(x)
  {
    if x in s && p(x) {
      var i :| 0 <= i < |s| && s[i] == x;
      assert p(s[i]);
    }
  }

  /** Filtering a concatenation filters each part: the kept elements stay in order. */
  lemma {:induction false} FilterConcat<T>(s: seq<T>, t: seq<T>, p: T -> bool)
    ensures Filter(s + t, p) == Filter(s, p) + Filter(t, p)
    decreases |t|
  {
    if t == [] {
      assert s + t == s;
    } else {
      var t' := t[..|t| - 1];
      assert (s + t)[..|s + t| - 1] == s + t';
      assert (s + t)[|s + t| - 1] == t[|t| - 1];
      FilterConcat(s, t', p);
    }
  }
}
