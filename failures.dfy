/** What an awaited call can end in: a value, or a thrown value the caller may inspect. */
module Failures {
  import opened Wrappers

  /**
   * A thrown value: whether it is an `Error` instance, its `status` field (`None` when it
   * has none) and its message.
   */
  datatype Thrown = Thrown(isError: bool, status: Option<int>, message: string)

  /** One call of an operation: it returned a value or threw. */
  datatype Attempt<T> = Returned(value: T) | Threw(error: Thrown)
}
