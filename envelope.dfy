/** The envelope every server action returns, `ActionResult<T>`, and the page
    record of the paginated query, `PaginationResult<T>`. */
module Envelope {
  import opened Wrappers

  /** `{ success, data?, error? }`; an absent `data` or `error` is `None`. */
  datatype ActionResult<T> = ActionResult(success: bool, data: Option<T>, error: Option<string>)

  datatype PaginationResult<T> = PaginationResult(
    data: seq<T>, total: int, page: int, limit: int, totalPages: int)

  /** `{ success: true, data }`. */
  function Succeed<T>(data: T): (r: ActionResult<T>)
    ensures r.success && r.data == Some(data) && r.error.None?
  {
    ActionResult(true, Some(data), None)
  }

  /** `{ success: true }`, the result of the delete actions. */
  function SucceedEmpty<T>(): (r: ActionResult<T>)
    ensures r.success && r.data.None? && r.error.None?
  {
    ActionResult(true, None, None)
  }

  /** `{ success: false, error }`. */
  function Fail<T>(error: string): (r: ActionResult<T>)
    ensures !r.success && r.data.None? && r.error == Some(error)
  {
    ActionResult(false, None, Some(error))
  }

  /** `try { ...; return { success: true, data } } catch { return { success: false, error: failure } }`:
      a repository error becomes the action's own fixed message, never the
      error's text. */
  function Catch<T>(res: Result<T>, failure: string): (r: ActionResult<T>)
    ensures res.Ok? ==> r == Succeed(res.value)
    ensures res.Err? ==> r == Fail(failure)
  {
    match res
    case Ok(v) => Succeed(v)
    case Err(_) => Fail(failure)
  }

  /** `result.error || fallback`: the envelope's message unless it is absent or empty. */
  function MessageOr<T>(result: ActionResult<T>, fallback: string): (m: string)
    ensures result.error.Some? && result.error.value != [] ==> m == result.error.value
    ensures result.error.None? || result.error.value == [] ==> m == fallback
  {
    if result.error.Some? && result.error.value != [] then result.error.value else fallback
  }
}
