/** Success-or-refusal results, and optional values. */
module Wrappers {

  datatype Option<+T> = None | Some(value: T)

  /** What a call answers: a value, or the reason it was refused. */
  datatype Result<+T, +E> = Ok(value: T) | Err(error: E) {

    predicate IsFailure() {
      Err?
    }

    function PropagateFailure<U>(): Result<U, E>
      requires Err?
    {
      Err(error)
    }

    function Extract(): T
      requires Ok?
    {
      value
    }
  }

  /** The first place in a list that answers to a description. */
  function FirstWhere<T>(s: seq<T>, p: T -> bool): (r: Option<nat>)
    ensures r.Some? ==> r.value < |s| && p(s[r.value]) && forall i :: 0 <= i < r.value ==> !p(s[i])
    ensures r.None? ==> forall i :: 0 <= i < |s| ==> !p(s[i])
  {
    if s == [] then None
    else
      var n := |s| - 1;
      var earlier := FirstWhere(s[..n], p);
      if earlier.Some? then earlier else if p(s[n]) then Some(n) else None
  }
}
