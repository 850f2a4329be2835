/** The optional-value type used for every "may be absent" result in the model
    (a null pointer, a failed lookup, a non-ok status). */
module Wrappers {

  datatype Option<+T> = None | Some(value: T)
}
