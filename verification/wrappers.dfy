/** Optional values: a C# reference or nullable that may be absent. */
module Wrappers {

  datatype Option<+T> = None | Some(value: T)
}
