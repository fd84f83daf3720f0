/** The optional value used by the parsers that invert the writer's output. */
module Options {

  datatype Option<+T> = None | Some(value: T)
}
