/** The C# `null` of a reference result and the TypeScript `| null` of a value. */
module Wrappers {

  datatype Option<+T> = None | Some(value: T)
}
