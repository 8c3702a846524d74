/** Datatypes shared by every module of the model. */
module Basics {
  /** The source's `X | None`. */
  datatype Option<+T> = None | Some(value: T)

  /** The source's "returns a value or raises": the error replaces the exception. */
  datatype Result<+T, +E> = Ok(value: T) | Err(error: E)

  /** A Cell's place in its lifecycle. */
  datatype CellStatus = Created | Alive | Dormant | Quarantined | Dead

  function Max(a: int, b: int): int {
    if a >= b then a else b
  }

  function Min(a: int, b: int): int {
    if a <= b then a else b
  }

  /** The natural numbers below `n`, as a set. */
  function Indices(n: nat): (s: set<nat>)
    ensures forall i: nat :: i in s <==> i < n
  {
    if n == 0 then {} else Indices(n - 1) + {n - 1}
  }

  lemma {:induction false} SubsetSize<T>(a: set<T>, b: set<T>)
    requires a <= b
    ensures |a| <= |b|
    ensures a < b ==> |a| < |b|
  {
    if a == {} {
    } else {
      var x :| x in a;
      if a < b {
        var y :| y in b && y !in a;
        assert y in b - {x} && y !in a - {x};
      }
      SubsetSize(a - {x}, b - {x});
    }
  }
}
