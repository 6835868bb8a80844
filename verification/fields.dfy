/** Request fields as the handlers see them in `req.body` and `req.params`. */
module Fields {

  /** A body or route field that may be absent. */
  datatype Option<+T> = None | Some(value: T)

  /** JavaScript truthiness of a string field: `!x` holds exactly when the
      field is absent or the empty string. */
  predicate Provided(f: Option<string>)
  {
    f.Some? && f.value != ""
  }
}
