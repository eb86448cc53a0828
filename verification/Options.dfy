/** The one optional-value datatype shared by every module. */
module Options {
  datatype Option<+T> = None | Some(value: T)
}
