/** The optional value the source writes as `T | null` (or an absent record). */
module Wrappers {
  datatype Option<+T> = None | Some(value: T)
}
