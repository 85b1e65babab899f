/** A value that may be missing: a form field that did not parse, a date that did not parse,
    a store that did or did not reject a transaction. */
module Optional {
  datatype Option<+T> = None | Some(value: T)
}
