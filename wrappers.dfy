/** The optional-value type used wherever a Python call can come back empty handed. */
module Wrappers {

  datatype Option<+T> = None | Some(value: T)
}
