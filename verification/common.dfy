/**
 The failure-carrying values shared by every metric: `Option` for the
 pointers the platform may leave nil, `Result` for the `(value, error)`
 pairs the metric functions return, and the errors they can report.
 */
module Common {

  datatype Option<T> = None | Some(value: T) {
    /** The pointed-to value, or `default` when the pointer is nil. */
    function GetOr(default: T): T {
      if Some? then value else default
    }
  }

  datatype Error =
    | ApiError(message: string)                  // a call to the hosting platform failed
    | InvalidWorkflowId(id: string)              // the configured workflow id is not a base-10 int64
    | WorkflowNotFound(name: string, repo: string) // no workflow of the repository has that name

  datatype Result<T> = Ok(value: T) | Err(error: Error)

  /** Points in time, in whole seconds. */
  type Instant = int
}
