/** Failure-compatible wrappers for the Python exceptions the converter can raise. */
module Results {

  datatype Option<+T> = None | Some(value: T)

  /** The exceptions of the modelled code, by the Python class that raises them. */
  datatype Error =
    | IndexError              // a list or string subscript out of range
    | KeyError(key: string)   // a metadata key that is not in the dictionary
    | ParseError(text: string) // ValueError from int() or float() on this text
    | NegativeDimension       // ValueError from np.zeros with a negative length
    | AssertionError          // the metadata file does not exist

  datatype Result<+T> = Ok(value: T) | Err(error: Error) {

    predicate IsFailure() {
      Err?
    }

    function PropagateFailure<U>(): Result<U>
      requires Err?
    {
      Err(error)
    }

    function Extract(): T
      requires Ok?
    {
      value
    }
  }

  /**
   * The values of the first `n` results, or the error of the first one
   * that failed: a loop that parses one item after another and stops at
   * the first exception.
   */
  function AllOk<T>(rs: seq<Result<T>>, n: nat): (r: Result<seq<T>>)
    requires n <= |rs|
    ensures r.Ok? ==> |r.value| == n
  {
    if n == 0 then Ok([])
    else
      var vs :- AllOk(rs, n - 1);
      var v :- rs[n - 1];
      Ok(vs + [v])
  }

  /** Once an item fails, the later items no longer matter. */
  lemma {:induction false} AllOkErrorPersists<T>(rs: seq<Result<T>>, i: nat, n: nat)
    requires i <= n <= |rs| && AllOk(rs, i).Err?
    ensures AllOk(rs, n) == AllOk(rs, i)
  {
    if i < n {
      AllOkErrorPersists(rs, i, n - 1);
    }
  }

  /** The fold succeeds with `vs` exactly when every one of the first `n` results is the matching value. */
  lemma {:induction false} AllOkSpec<T>(rs: seq<Result<T>>, n: nat, vs: seq<T>)
    requires n <= |rs|
    ensures AllOk(rs, n) == Ok(vs) <==> |vs| == n && forall i :: 0 <= i < n ==> rs[i] == Ok(vs[i])
  {
    if n > 0 {
      if |vs| == n {
        AllOkSpec(rs, n - 1, vs[..n - 1]);
        assert vs == vs[..n - 1] + [vs[n - 1]];
      } else if AllOk(rs, n).Ok? {
        AllOkSpec(rs, n - 1, AllOk(rs, n - 1).value);
      }
    }
  }

  /** The fold succeeds exactly when none of the first `n` results is an error. */
  lemma AllOkIff<T>(rs: seq<Result<T>>, n: nat)
    requires n <= |rs|
    ensures AllOk(rs, n).Ok? <==> forall i :: 0 <= i < n ==> rs[i].Ok?
  {
    if forall i :: 0 <= i < n ==> rs[i].Ok? {
      var vs := seq(n, i requires 0 <= i < n => rs[i].value);
      AllOkSpec(rs, n, vs);
    } else if AllOk(rs, n).Ok? {
      AllOkSpec(rs, n, AllOk(rs, n).value);
    }
  }
}
