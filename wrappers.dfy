/** Optional values: a queue slot that holds an element, or one that is
    uninitialised storage (never constructed, or already destroyed). */
module Wrappers {

  datatype Option<+T> = None | Some(value: T)

}
