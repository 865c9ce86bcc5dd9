/** Values shared by every module: optional values and the Python exceptions the
    pipeline's scripts can raise, carried as an explicit error outcome. */
module Base {

  datatype Option<T> = None | Some(value: T)

  /** The exception classes the modelled code can raise. */
  datatype Error =
    | TypeError          // len() of a number, arithmetic on a missing value
    | KeyError           // a missing dictionary key or data-frame column
    | IndexError         // list index out of range
    | ValueError         // max() of an empty sequence
    | AttributeError     // a method called on None (a failed re.search)
    | EvalFailure        // eval() of a text that is not a list literal
    | InvalidConfiguration(message: string)

  datatype Result<T> = Ok(value: T) | Err(error: Error) {
    predicate IsFailure() { Err? }
    function PropagateFailure<U>(): Result<U>
      requires Err?
    {
      Err(error)
    }
    function Extract(): T
      requires Ok?
    {
      value
    }
  }

  /** The first position holding `x` (`list.index`, or the first index of a
      boolean mask); none exactly when `x` is absent. */
  function FirstIndex<T(==)>(xs: seq<T>, x: T): (r: Option<nat>)
    ensures r.Some? ==> r.value < |xs| && xs[r.value] == x && forall k :: 0 <= k < r.value ==> xs[k] != x
    ensures r.None? <==> x !in xs
  {
    if |xs| == 0 then None
    else if xs[0] == x then Some(0)
    else match FirstIndex(xs[1..], x)
      case None => None
      case Some(k) => Some(k + 1)
  }

  /** The names not among `present`, in their own order: the columns a
      data frame gains when rows or cells with those columns are added. */
  function Missing<T(==,!new)>(present: seq<T>, names: seq<T>): (r: seq<T>)
    ensures forall c :: c in r <==> c in names && c !in present
  {
    if |names| == 0 then []
    else
      var last := names[|names| - 1];
      assert names == names[..|names| - 1] + [last];
      Missing(present, names[..|names| - 1]) + (if last in present then [] else [last])
  }
}
