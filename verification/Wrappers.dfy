// Small datatypes and a source of fresh numbers, shared by the modules of the model.
module Wrappers {

  datatype Option<+T> = None | Some(value: T)

  datatype Result<+T, +E> = Ok(value: T) | Err(error: E)

  // One write of a file: done, not done, or done although an error is reported.
  datatype Write = Written | Unwritten | Unreported

  lemma FreshNat(used: set<nat>) returns (n: nat)
    ensures n !in used
  {
    n := 0;
    var below: set<nat> := {};
    while n in used
      invariant below <= used && forall k | k in below :: k < n
      decreases used - below
    {
      below := below + {n};
      n := n + 1;
    }
  }
}
