/** Optional values, standing for TypeScript's `T | undefined` and `T | null`. */
module Wrappers {
  datatype Option<+T> = None | Some(value: T)
}
