/** Small failure-carrying datatypes shared by the whole model. */
module Base {

  /** A value that may be missing: JavaScript's `undefined`/`null` on one side, a value on the other. */
  datatype Option<+T> = None | Some(value: T)

  /** The reasons a step of the pipeline throws instead of returning. */
  datatype Fault =
    | MissingApiKey                      // callLLM finds no API key
    | Upstream(status: int, body: string) // the extraction endpoint answered with a non-2xx status
    | Transport                          // fetch rejected, or the reply body was not JSON
    | TypeError                          // a property was read from a JSON `null`

  /** Either the value a JavaScript function returned, or the fault it threw. */
  datatype Outcome<+T> = Returned(value: T) | Threw(fault: Fault)

  function Min(a: int, b: int): int
  {
    if a <= b then a else b
  }
}
