/** Option, standing for the source's `null` / `undefined`, and the linear search
    that `Array.prototype.find` and `findIndex` perform. */
module Wrappers {

  datatype Option<+T> = None | Some(value: T)

  /** The index of the first element satisfying `p`, or None: what `findIndex`
      returns (with -1 as None). */
  function FirstIndex<T>(s: seq<T>, p: T -> bool): (r: Option<nat>)
    ensures r.Some? ==> r.value < |s| && p(s[r.value])
    ensures r.Some? ==> forall j :: 0 <= j < r.value ==> !p(s[j])
    ensures r.None? ==> forall j :: 0 <= j < |s| ==> !p(s[j])
  {
    if s == [] then None
    else if p(s[0]) then Some(0)
    else match FirstIndex(s[1..], p)
      case None => None
      case Some(i) => Some(i + 1)
  }
}
