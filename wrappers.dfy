/** Option, used for values the source represents as nil or a failed decode. */
module Wrappers {

  datatype Option<+T> = None | Some(value: T)

}
