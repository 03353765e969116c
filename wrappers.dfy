/** Result shapes shared by the modules: an optional value, a value-or-reason and a
    pass-or-reason. Every failure in the modelled system carries a human-readable
    reason string (the `message` of a thrown JavaScript error, or a literal). */
module Wrappers {

  datatype Option<+T> = None | Some(value: T)

  datatype Result<+T> = Ok(value: T) | Err(error: string)

  datatype Outcome = Pass | Fail(error: string)
}
