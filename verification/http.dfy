/** Request fields, HTTP statuses and handler outcomes shared by every handler
    of the user controller. */
module Http {

  /** A value that may be absent. */
  datatype Option<+T> = None | Some(value: T)

  /** One field of a request body: absent (`None`) or the string that was sent. */
  type Field = Option<string>

  /** JavaScript truthiness of a body field: an absent field and the empty
      string are both falsy, every other string is truthy. */
  predicate Filled(f: Field) {
    f.Some? && f.value != ""
  }

  /** The status an `ErrorHandler` is built with; `Unset` when the handler
      passes none and leaves the choice to the error middleware. */
  datatype Status = Code(code: nat) | Unset

  /** How a handler ends:
      - `Ok`: the success response, with its payload;
      - `Fail`: an `ErrorHandler` handed to `next`, with its message and status;
      - `Crash`: an exception the handler did not catch itself, which the
        async wrapper forwards to the error middleware. */
  datatype Outcome<+P> = Ok(payload: P) | Fail(message: string, status: Status) | Crash
}
