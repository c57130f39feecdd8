/** Optional values, the exceptions the sinks raise, results carrying them, and the integer
    types of the source. */
module Outcomes {

  /** A value that may be absent (a C# null reference or a missing `int?`). */
  datatype Option<+T> = None | Some(value: T)

  /** The exceptions the rotation engine lets escape to its caller. */
  datatype Error =
    | ArgumentNull(parameter: string)      // ArgumentNullException
    | ObjectDisposed(objectName: string)   // ObjectDisposedException
    | NullReference                        // dereferencing a null StreamWriter
    | ArgumentOutOfRange                   // Substring with a negative length
    | IOFailure(path: string)              // an IOException that is not contention
    | UnauthorizedAccess(path: string)     // UnauthorizedAccessException
    | RetryFuelExhausted                   // the open-retry recursion ran past its bound
    | EmptyPath                            // ArgumentException from Directory.CreateDirectory("")
    | DirectoryNotFound                    // DirectoryNotFoundException from Directory.GetFiles

  /** Either a value or the exception that was thrown instead. */
  datatype Result<+T> = Ok(value: T) | Err(error: Error)

  /** A step of a stateful object: the state it is left in, and the exception that escaped, if
      any. An exception thrown halfway through a step leaves the effects made before it. */
  datatype Outcome<+S> = Outcome(state: S, thrown: Option<Error>)

  /** 32-bit unsigned integers, the type of every sequence number. */
  const UINT32_LIMIT: int := 0x1_0000_0000

  type uint32 = x: int | 0 <= x < UINT32_LIMIT

  /** C# `x + 1` on a `uint` in an unchecked context: wraps to 0 past the maximum. */
  function Inc32(x: uint32): (r: uint32)
    ensures x < UINT32_LIMIT - 1 ==> r == x + 1
    ensures x == UINT32_LIMIT - 1 ==> r == 0
  {
    (x + 1) % UINT32_LIMIT
  }

  /** `f` applied `k` times, the first application innermost. */
  function Iterate<T>(f: T -> T, x: T, k: nat): T
    decreases k
  {
    if k == 0 then x else Iterate(f, f(x), k - 1)
  }

  /** 32-bit signed integers, the type of the retained file count limit. */
  const INT32_LIMIT: int := 0x8000_0000

  type int32 = x: int | -INT32_LIMIT <= x < INT32_LIMIT

  /** C# `x - 1` on an `int` in an unchecked context: below the minimum it wraps to the maximum. */
  function Dec32(x: int32): (r: int32)
    ensures x > -INT32_LIMIT ==> r == x - 1
    ensures x == -INT32_LIMIT ==> r == INT32_LIMIT - 1
  {
    if x == -INT32_LIMIT then INT32_LIMIT - 1 else x - 1
  }

  /** 64-bit signed integers, the type of byte counts and size limits. */
  const INT64_LIMIT: int := 0x8000_0000_0000_0000

  type int64 = x: int | -INT64_LIMIT <= x < INT64_LIMIT
}
