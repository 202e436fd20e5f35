/** Small general-purpose definitions shared by the rest of the model. */
module Prelude {

  /** The conventional Some/None datatype, used for lookups and matches that can fail. */
  datatype Option<T> = None | Some(value: T)

  /** The position of the first element of `xs` that satisfies `p`, the way a
      Python `for` loop with an early `return` finds it. */
  function FirstIndex<T>(xs: seq<T>, p: T -> bool): (r: Option<nat>)
    ensures r.Some? ==> r.value < |xs| && p(xs[r.value])
    ensures r.Some? ==> forall j :: 0 <= j < r.value ==> !p(xs[j])
    ensures r.None? <==> forall j :: 0 <= j < |xs| ==> !p(xs[j])
  {
    if |xs| == 0 then None
    else if p(xs[0]) then Some(0)
    else match FirstIndex(xs[1..], p)
      case None => None
      case Some(k) => Some(k + 1)
  }
}
