/** The optional-value wrapper used for Python's `None` and for operations that raise. */
module Results {

  datatype Option<+T> = None | Some(value: T)

}
