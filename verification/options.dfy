/** The optional value used wherever the generator's collaborators can come up empty. */
module Options {

  datatype Option<+T> = None | Some(value: T)

}
