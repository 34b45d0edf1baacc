/** Failure-carrying return values: the Python code raises an exception (or goes on
    with a NaN or an infinity) where these models return `Err`, and returns `None` where they return `None`. */
module Results {

  datatype Option<+T> = None | Some(value: T)

  datatype Result<+T, +E> = Ok(value: T) | Err(error: E)

  /** The values of `rs` in order, or the error of the first failure among them:
      a loop that raises at the first failing step. */
  function Sequence<T, E>(rs: seq<Result<T, E>>): (r: Result<seq<T>, E>)
    ensures r.Ok? <==> forall i :: 0 <= i < |rs| ==> rs[i].Ok?
    ensures r.Ok? ==> |r.value| == |rs| && forall i :: 0 <= i < |rs| ==> rs[i] == Ok(r.value[i])
  {
    if |rs| == 0 then Ok([])
    else
      var init := rs[..|rs| - 1];
      assert forall i :: 0 <= i < |init| ==> init[i] == rs[i];
      match Sequence(init)
      case Err(e) => Err(e)
      case Ok(vs) =>
        match rs[|rs| - 1]
        case Err(e) => Err(e)
        case Ok(v) => Ok(vs + [v])
  }

  /** One more successful step extends the values. */
  lemma SequenceSnoc<T, E>(rs: seq<Result<T, E>>, k: nat, vs: seq<T>)
    requires k < |rs| && Sequence(rs[..k]) == Ok(vs) && rs[k].Ok?
    ensures Sequence(rs[..k + 1]) == Ok(vs + [rs[k].value])
  {
    assert rs[..k + 1][..k] == rs[..k];
  }

  /** The first failure decides the error, whatever follows it. */
  lemma {:induction false} SequenceFirstError<T, E>(rs: seq<Result<T, E>>, k: nat)
    requires k < |rs|
    requires forall i :: 0 <= i < k ==> rs[i].Ok?
    requires rs[k].Err?
    ensures Sequence(rs) == Err(rs[k].error)
    decreases |rs|
  {
    var init := rs[..|rs| - 1];
    assert forall i :: 0 <= i < |init| ==> init[i] == rs[i];
    if k < |init| {
      SequenceFirstError(init, k);
    }
  }
}
