/** Rust's `Option<T>`, the cell type of the matrix. */
module Options {

  datatype Option<T> = None | Some(value: T)
}
