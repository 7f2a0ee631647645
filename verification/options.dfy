/** The optional value used where the program holds either nothing (`None`)
    or one value. */
module Options {

  datatype Option<+T> = None | Some(value: T)
}
