/** The optional value the model uses wherever the script either produces
    something or nothing (a report block, an accepted threshold). */
module Options {

  datatype Option<+T> = None | Some(value: T)

}
