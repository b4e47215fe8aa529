/** Optional values: a field that TypeScript declares with `?` (present or `undefined`). */
module Wrappers {

  datatype Option<+T> = None | Some(value: T)
}
