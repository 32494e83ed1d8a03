/** Values shared by every part of the profiler model: the optional value,
    the fatal conditions the tool reports, and a result that carries one. */
module Common {

  datatype Option<T> = None | Some(value: T)

  /** Every condition on which main() prints a message and returns EXIT_FAILURE. */
  datatype Error =
    | NoExecutable                    // no token after the program name
    | IllegalArgument(token: string)  // a token string_case maps to 0
    | UnexpectedEnd                   // an option with no following token
    | CountNotNumeric                 // the --count value fails is_digits
    | CountTooLarge                   // std::stoull throws out_of_range
    | CountNotAccepted                // std::stoull throws invalid_argument
    | CountZero                       // the --count value is 0
    | OutFileUnwritable               // the --out path cannot be opened for writing
    | ErrFileUnwritable               // the --err path cannot be opened for writing
    | InFileUnreadable                // the --in path cannot be opened for reading
    | LaunchFailed(what: string)      // the child process could not be started

  datatype Result<T> = Ok(value: T) | Err(error: Error)
}
