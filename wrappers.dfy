/** Optional values, standing for the nil that the Objective-C API returns on failure. */
module Wrappers {

  datatype Option<+T> = None | Some(value: T)
}
