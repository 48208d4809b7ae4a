/** The optional-value datatype used for TypeScript's optional fields and for lookups
    that may miss. */
module Wrappers {

  /** A present value or nothing (`undefined` / `null` in the modelled code). */
  datatype Option<+T> = None | Some(value: T)
}
