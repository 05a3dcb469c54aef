/** The optional value used wherever the editor has "maybe" data: an optional button style,
    a template key that may be unknown, a font family that may not be in the catalogue. */
module Wrappers {

  datatype Option<+T> = None | Some(value: T)
}
