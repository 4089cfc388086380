/** Small shared vocabulary: an optional value and a first-match search over a
    sequence, the shape of every `SELECT ... fetchone()` lookup in the
    application and of the character search in the project-name parser. */
module Base {

  datatype Option<+T> = None | Some(value: T)

  /** The index of the first element satisfying `p`, if there is one. */
  function Find<T>(xs: seq<T>, p: T -> bool): (r: Option<nat>)
    ensures r.Some? ==> r.value < |xs| && p(xs[r.value])
    ensures r.Some? ==> forall k :: 0 <= k < r.value ==> !p(xs[k])
    ensures r.None? <==> forall k :: 0 <= k < |xs| ==> !p(xs[k])
    decreases |xs|
  {
    if xs == [] then None
    else if p(xs[0]) then Some(0)
    else match Find(xs[1..], p)
      case None => None
      case Some(i) => Some(i + 1)
  }
}
