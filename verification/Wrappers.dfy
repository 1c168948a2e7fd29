/** An optional value: the model's reading of a null reference or an absent map entry. */
module Wrappers {
  datatype Option<T> = None | Some(value: T)
}
