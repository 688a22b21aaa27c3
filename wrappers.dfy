/** Optional values: a host callback that raised an error, or a scan that found nothing. */
module Wrappers {
  datatype Option<+T> = None | Some(value: T)
}
