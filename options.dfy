/** An optional value: the answer of a dictionary lookup or of a search. */
module Options {
  datatype Option<T> = None | Some(value: T)
}
