/** The optional value shared by the modules of this project. */
module Optional {

  datatype Option<+T> = None | Some(value: T)
}
