/** Null-able values and failing operations.
    `None` stands for a Java `null`; `Err` for an exception the service throws. */
module Wrappers {

  datatype Option<+T> = None | Some(value: T) {
    function GetOr(default: T): T {
      match this
      case Some(v) => v
      case None => default
    }
  }

  datatype Result<+T, +E> = Ok(value: T) | Err(error: E)

  /** Both present: their sum; otherwise absent (an addition that would throw). */
  function AddOpt(a: Option<int>, b: Option<int>): (r: Option<int>)
    ensures r.Some? <==> a.Some? && b.Some?
    ensures r.Some? ==> r.value == a.value + b.value
  {
    if a.Some? && b.Some? then Some(a.value + b.value) else None
  }

  /** Every element present: the list of their values; otherwise absent (a
      loop that throws at its first failing step). */
  function AllSome<T>(s: seq<Option<T>>): (r: Option<seq<T>>)
    ensures r.Some? <==> forall k :: 0 <= k < |s| ==> s[k].Some?
    ensures r.Some? ==> |r.value| == |s| && forall k :: 0 <= k < |s| ==> r.value[k] == s[k].value
  {
    if s == [] then Some([])
    else match AllSome(s[..|s| - 1])
      case None => None
      case Some(init) => if s[|s| - 1].None? then None else Some(init + [s[|s| - 1].value])
  }
}
