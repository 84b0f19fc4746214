/** The optional value the prompt uses for "no selection", "no common prefix" and "not answered yet". */
module Wrappers {

  datatype Option<+T> = None | Some(value: T)
}
