/** The option type shared by the models: a nullable column or an optional field. */
module Options {
  datatype Option<+T> = None | Some(value: T)
}
