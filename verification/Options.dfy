/** The optional values shared by the other modules; None stands for npos, nullptr or "no such entry". */
module Options {

  datatype Option<+T> = None | Some(value: T)
}
