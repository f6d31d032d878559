/** Optional values, used for the nullable fields and searches of the model. */
module Wrappers {

  /** A value that may be absent: JavaScript's `null`, or a search that found nothing. */
  datatype Option<+T> = None | Some(value: T)
}
