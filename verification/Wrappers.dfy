// The optional value shared by otherwise unrelated modules.
module Wrappers {

  datatype Option<T> = None | Some(value: T)
}
