/** The Some/None datatype that stands for a nullable value of the service. */
module Options {
  datatype Option<+T> = None | Some(value: T)
}
