/** Optional values: an absent JavaScript field, or a search that found nothing. */
module Wrappers {

  datatype Option<+T> = None | Some(value: T)
}
