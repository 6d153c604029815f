/** Small shared datatypes. */
module Common {

  /** A nullable database column or an optional Python value. */
  datatype Option<+T> = None | Some(value: T)
}
