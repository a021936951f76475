/** An optional value, used where a computation of the model can fail. */
module Optional {

  datatype Option<+T> = None | Some(value: T)
}
