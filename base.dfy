/**
 * Shared vocabulary of the model: optional values, results of calls that can
 * fail, Go's fixed-width integers and byte slices, and the errors the
 * pipeline produces or passes along.
 */
module Base {

  datatype Option<+T> = None | Some(value: T)

  /** The (value, error) pair a Go call returns, with exactly one side set. */
  datatype Result<+R, +E> = Success(value: R) | Failure(error: E)

  type uint8 = x: int | 0 <= x < 0x100
  type uint32 = x: int | 0 <= x < 0x1_0000_0000
  type int64 = x: int | -0x8000_0000_0000_0000 <= x < 0x8000_0000_0000_0000

  type Bytes = seq<uint8>

  /**
   * Go errors, as far as the model distinguishes them.
   * Opaque stands for an error made by a collaborator the model does not
   * look into (a codec, the operating system, a plug-in).
   */
  datatype Error =
    | Opaque(msg: string)
      /** context.Canceled, what ctx.Err() reports once a context is cancelled */
    | Canceled
      /** pool.ErrPoolIsClosing */
    | PoolIsClosing
      /** util.ErrFileSizeLimitExceeded{Path, Actual, Needed} */
    | SizeLimitExceeded(path: string, actual: int64, needed: int64)
      /** fmt.Errorf("<prefix>: %w", cause) */
    | Wrapped(prefix: string, cause: Error)
      /** errors.Join of the arguments that were not nil, in argument order */
    | Joined(errs: seq<Error>)

  /** The error as a list of zero or one causes. */
  function NonNil(e: Option<Error>): (r: seq<Error>)
    ensures e.None? ==> r == []
    ensures e.Some? ==> r == [e.value]
  {
    if e.Some? then [e.value] else []
  }

  /** errors.Join(a, b): nil when both are nil, otherwise the non-nil ones joined. */
  function Join(a: Option<Error>, b: Option<Error>): (r: Option<Error>)
    ensures r.None? <==> a.None? && b.None?
    ensures r.Some? ==> r == Some(Joined(NonNil(a) + NonNil(b)))
  {
    match (a, b)
    case (None, None) => None
    case (Some(x), None) => assert [x] + [] == [x]; Some(Joined([x]))
    case (None, Some(y)) => assert [] + [y] == [y]; Some(Joined([y]))
    case (Some(x), Some(y)) => assert [x] + [y] == [x, y]; Some(Joined([x, y]))
  }
}
