/** Optional values: the model of TypeScript's `T | null` and of optional chaining. */
module Wrappers {

  datatype Option<+T> = None | Some(value: T)
}
