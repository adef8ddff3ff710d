/** A value that may be missing: a parse that gave NaN, a rejected nickname. */
module Optional {

  datatype Option<+T> = None | Some(value: T)
}
