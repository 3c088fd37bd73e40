/** The optional value a lookup or a hit test returns (`null`/`undefined` in the page script). */
module Wrappers {
  datatype Option<+T> = None | Some(value: T)
}
