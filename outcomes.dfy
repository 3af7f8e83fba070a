/** Results of operations against the key-value backend, which may throw. */
module Outcomes {

  /** A value that may be missing (`null` in the program). */
  datatype Option<+T> = None | Some(value: T)

  /** The error a backend call throws; it records which backend call (counted from 0) failed. */
  datatype StorageError = StorageFault(call: nat)

  /** A value, or the error that was thrown instead of producing it. */
  datatype Outcome<+T> = Ok(value: T) | Fail(error: StorageError)

  /** A promise of nothing that either resolved or was rejected. */
  datatype Status = Resolved | Rejected(error: StorageError)

  function ToStatus<T>(o: Outcome<T>): (s: Status)
    ensures s.Resolved? <==> o.Ok?
    ensures o.Fail? ==> s.error == o.error
  {
    match o
    case Ok(_) => Resolved
    case Fail(e) => Rejected(e)
  }
}
