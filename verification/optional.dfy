/** A value that may be absent: stands for Python's `None`, a missing
    dictionary key, a pandas NA cell, or a call that raised. */
module Optional {

  datatype Option<+T> = None | Some(value: T)
}
