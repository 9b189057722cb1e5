/** Option, for results that may be absent (a date with no data, a search that finds nothing). */
module Wrappers {

  datatype Option<+T> = None | Some(value: T)

}
