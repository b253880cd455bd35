/** The absence marker the daemon uses for a camera slot whose image could not be fetched. */
module Wrappers {

  datatype Option<+T> = None | Some(value: T)
}
