/** An answer that may be missing: the null pointers and failure codes of the programs. */
module Options {

  datatype Option<T> = None | Some(value: T)
}
