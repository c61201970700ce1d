/** A value that may be absent: an argument the caller may leave out, or a
    number that JavaScript would read as NaN. */
module Optional {

  datatype Option<T> = None | Some(value: T)
}
