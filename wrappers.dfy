/** Small value wrappers shared by the other modules. */
module Wrappers {

  /** A value that may be absent (`null`/`undefined` on the TypeScript side). */
  datatype Option<+T> = None | Some(value: T)

  /** How an awaited remote call settled: its resolved value, or a thrown error. */
  datatype Reply<+T> = Resolved(value: T) | Rejected
}
