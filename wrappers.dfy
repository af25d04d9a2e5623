/** Optional values: a widget with no selection, or a click count not yet set. */
module Wrappers {

  datatype Option<+T> = None | Some(value: T)
}
