/** Failure-compatible results, and collecting a sequence of results into
    the result of a sequence: every value in order, or the first error. The
    builders collect their children into a plain vector and panic on the
    first bad child; here that first `Err` stands for the first panic. */
module Results {

  datatype Option<+T> = None | Some(value: T)

  datatype Result<+T, +E> = Ok(value: T) | Err(error: E) {
    predicate IsFailure() { Err? }

    function PropagateFailure<U>(): Result<U, E>
      requires Err?
    {
      Err(error)
    }

    function Extract(): T
      requires Ok?
    {
      value
    }
  }

  /** True when every result in `rs` is a success. */
  predicate AllOk<T, E>(rs: seq<Result<T, E>>) {
    forall i :: 0 <= i < |rs| ==> rs[i].Ok?
  }

  /** `k` is the position of the first failure in `rs`. */
  predicate FirstErrAt<T, E>(rs: seq<Result<T, E>>, k: int) {
    0 <= k < |rs| && rs[k].Err? && forall j :: 0 <= j < k ==> rs[j].Ok?
  }

  /** All values when every result succeeds, else the first error. */
  function Collect<T, E>(rs: seq<Result<T, E>>): (r: Result<seq<T>, E>)
    ensures r.Ok? <==> AllOk(rs)
    ensures r.Ok? ==> |r.value| == |rs| && forall i :: 0 <= i < |rs| ==> r.value[i] == rs[i].value
    ensures r.Err? ==> exists k :: FirstErrAt(rs, k) && r.error == rs[k].error
  {
    if rs == [] then Ok([])
    else
      var x :- rs[0];
      var xs :- Collect(rs[1..]);
      assert forall i :: 1 <= i < |rs| ==> rs[i] == rs[1..][i - 1];
      Ok([x] + xs)
  }
}
