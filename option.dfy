/** A value that may be absent: JavaScript's `null` for the No button's
    position before its first dodge, and the result of a search that can
    come up empty. */
module Option {

  datatype Option<+T> = None | Some(value: T)
}
