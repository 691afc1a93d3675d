/** The optional-value type used for a build result that may not exist yet,
    for the log line a hook may or may not print, and for parses that may fail. */
module Wrappers {

  datatype Option<+T> = None | Some(value: T)
}
