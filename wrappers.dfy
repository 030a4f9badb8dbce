/** Result shapes shared by the model: an optional value (a TypeScript `T | null`
    or `T | undefined`) and the reply of an asynchronous backend call, which either
    carries data or an error message. */
module Wrappers {

  datatype Option<+T> = None | Some(value: T)

  /** A backend call that returns data: `{ data, error }` with exactly one of them set. */
  datatype Reply<+T> = Ok(value: T) | Err(message: string)

  /** A backend call that returns no data: `{ error }`. */
  datatype Outcome = Success | Failure(message: string)
}
