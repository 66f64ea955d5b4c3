/** Failure-carrying values that stand in for the client's `None` checks and
    for the exceptions its SDK calls raise. */
module Outcomes {

  /** An optional value; `None` stands for Python's `None`. */
  datatype Option<+T> = None | Some(value: T) {

    /** Python's `x if x is not None else fallback`. */
    function Or(fallback: T): T {
      if Some? then value else fallback
    }
  }

  /** The result of a call into the agent service: a payload, or the text of
      the exception it raised (what `str(e)` would print). */
  datatype Result<+T> = Ok(value: T) | Err(message: string)

  /** Python truthiness of an optional string: present and non-empty. */
  predicate Truthy(s: Option<string>) {
    s.Some? && s.value != ""
  }
}
