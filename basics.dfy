/** Option and Result, the two wrappers the registry's error returns are modelled with. */
module Basics {

  datatype Option<+T> = None | Some(value: T)

  /** A Go `(value, error)` pair: either a value or the error that replaced it. */
  datatype Result<+T, +E> = Ok(value: T) | Err(error: E)

  /** The positions below n that satisfy p, in increasing order, each once. */
  function Where(n: nat, p: nat -> bool): (r: seq<nat>)
    ensures forall i :: 0 <= i < |r| ==> r[i] < n && p(r[i])
    ensures forall j :: 0 <= j < n && p(j) ==> j in r
    ensures forall i, i' :: 0 <= i < i' < |r| ==> r[i] < r[i']
    decreases n
  {
    if n == 0 then [] else Where(n - 1, p) + (if p(n - 1) then [n - 1] else [])
  }
}
