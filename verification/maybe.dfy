/** The optional value used where the source returns `nullptr` or a
    stream read can fail. */
module Maybe {

  datatype Option<+T> = None | Some(value: T)
}
