/** An optional value, standing for the source's null results, "not found"
    results and thrown exceptions. */
module Maybe {
  datatype Option<+T> = None | Some(value: T)
}
