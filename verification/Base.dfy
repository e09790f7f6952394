/** Machine types and result wrappers shared by every part of the model. */
module Base {
  const U64_LIMIT: int := 0x1_0000_0000_0000_0000
  const U64_MAX: int := U64_LIMIT - 1

  type byte = b: int | 0 <= b < 256
  type u64 = n: int | 0 <= n < 0x1_0000_0000_0000_0000

  datatype Option<+T> = None | Some(value: T)

  /** The errors of the sync layer (core/src/sync/error.rs). */
  datatype SyncError =
    | Storage
    | Violation(why: string)
    | ResourceLimit
    | Malformed(why: string)
    | UnsupportedVersion(version: byte)
    | FrameLimitTooSmall(floor: nat)
    | AlreadyInitiated

  datatype Result<+T, +E> = Ok(value: T) | Err(error: E) {
    predicate IsFailure() {
      Err?
    }

    function PropagateFailure<U>(): Result<U, E>
      requires Err?
    {
      Err(error)
    }

    function Extract(): T
      requires Ok?
    {
      value
    }
  }

  /** No element occurs twice. */
  ghost predicate NoDup<T>(s: seq<T>) {
    forall i, j :: 0 <= i < j < |s| ==> s[i] != s[j]
  }
}
