/** The Some/None wrapper used wherever the source can come back with "nothing". */
module Optional {

  datatype Option<+T> = None | Some(value: T)
}
