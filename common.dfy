/** Failure-carrying wrappers and the error values of the alert pipeline. */
module Common {

  /** The text of an error returned by a collaborator (Cloud Controller, Prometheus, HTTP). */
  type Fault = string

  datatype Option<+T> = None | Some(value: T)

  datatype Result<+T, +E> = Success(value: T) | Failure(error: E)

  /** What a Go function returning only `error` reports: nil (`Pass`) or an error. */
  datatype Outcome<+E> = Pass | Fail(error: E)

  /** A Go call whose error its caller discards or only logs (`x, _ := f()`):
      the value returned beside the error is used whatever the error is. */
  datatype Returned<+T> = Returned(value: T, err: Option<Fault>)

  /** The errors the pipeline itself produces or passes on. */
  datatype Error =
    | NumError(num: string)              // strconv.Atoi refused the threshold text
    | Lookup(fault: Fault)               // a Cloud Controller lookup failed; returned unwrapped
    | RenderQueryFailed(fault: Fault)    // "Error rendering prometheus query"
    | QueryFailed(fault: Fault)          // "Error querying prometheus"
    | NotAVector                         // "Prometheus query did not return a vector"
    | RenderMessageFailed(fault: Fault)  // "Error rendering message"
    | RenderSubjectFailed(fault: Fault)  // "Error rendering subject"
    | MarshalFailed(fault: Fault)        // json.Marshal of the notification failed
    | CallFailed(fault: Fault)           // the HTTP call to the notification service failed
    | LoginFailed                        // 401 from the notification service
    | AlreadySent                        // 409 from the notification service
    | UnexpectedStatus(code: int)        // any other status code
}
