/** Optional values, used for absent clipboard text and for decoders that can fail. */
module Wrappers {

  datatype Option<+T> = None | Some(value: T)
}
