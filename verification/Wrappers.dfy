/** What may be missing: the gateway's nil and empty results. */
module Wrappers {
  datatype Option<+T> = None | Some(value: T)
}
