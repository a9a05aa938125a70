// The optional value used for std::optional and for failed reads.

module Optional {

  datatype Option<T> = None | Some(value: T)
}
