/** The optional value used for Rust's `Option` and for operations that
    panic (`None` stands for the panic). */
module Wrappers {

  datatype Option<+T> = None | Some(value: T)
}
