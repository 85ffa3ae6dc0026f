/** Option, Result and Outcome, and the Python exceptions the modelled code raises. */
module Wrappers {

  datatype Option<+T> = None | Some(value: T)

  /** The exceptions that can leave the modelled code. */
  datatype Error =
    | AttributeError    // a missing attribute, or `.get` on a value that is not a dict
    | TypeError         // hashlib.sha1(None)
    | LookupError       // User._load found no row for its uuid
    | IntegrityError    // sqlite3: PRIMARY KEY or UNIQUE constraint failed
    | OperationalError  // sqlite3: malformed statement or unreadable database
    | ValueError        // json.loads on text that is not JSON

  /** A value or the exception raised instead of returning it. */
  datatype Result<+T> = Ok(value: T) | Err(error: Error)

  /** The outcome of a call made for its effect only. */
  datatype Outcome = Pass | Fail(error: Error)
}
