/** Shared vocabulary: optional values, row identifiers, instants. */
module Basics {

  datatype Option<+T> = None | Some(value: T) {
    function GetOr(default: T): T {
      match this
      case Some(v) => v
      case None => default
    }
  }

  datatype Result<+T, +E> = Ok(value: T) | Err(error: E)

  /** A row identifier; only equality matters, as for a uuid. */
  type Id = nat

  /** An instant, or a length of time, in nanoseconds. */
  type Time = int

  const SECOND: Time := 1_000_000_000
  const MINUTE: Time := 60 * SECOND

  const TWO_63: int := 0x8000_0000_0000_0000

  /** No element occurs twice. */
  predicate Distinct<T(==)>(q: seq<T>) {
    forall i, j :: 0 <= i < j < |q| ==> q[i] != q[j]
  }

  /** How the services read a page size: zero means the default, and there is a cap. */
  function PageLimit(limit: int, default: nat, max: nat): (n: nat)
    requires limit >= 0 && 0 < default <= max
    ensures 0 < n <= max
  {
    if limit == 0 then default else if limit > max then max else limit
  }
}
