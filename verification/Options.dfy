/** The optional value shared by the models: a partial result, or nothing. */
module Options {

  datatype Option<+T> = None | Some(value: T)

}
