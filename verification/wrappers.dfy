/** Optional values: the geocoder's answer and table lookups by label. */
module Wrappers {

  datatype Option<+T> = None | Some(value: T)

}
