/** Option type: `None` stands for the Python exception a call raises
    (an index into an empty list, the argmax of an empty array) or for a NaN result. */
module Wrappers {

  datatype Option<+T> = None | Some(value: T)
}
