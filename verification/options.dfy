/** A value the game may lack: a missing save field, a step number that names no step, a target of no step. */
module Options {

  datatype Option<T> = None | Some(value: T)
}
