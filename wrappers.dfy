/** The optional value used for Python operations that can fail (an index out
    of range, a token that `float()` rejects). */
module Wrappers {

  datatype Option<+T> = None | Some(value: T)

}
