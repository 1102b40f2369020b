/** Option and Result: Java's null references and thrown exceptions, as values. */
module Wrappers {

  datatype Option<T> = None | Some(value: T)

  /** The exceptions the modelled code can throw. */
  datatype Fault =
    | NullReference         // NullPointerException (unboxing or dereferencing null)
    | IllegalArgument     // IllegalArgumentException
    | IllegalState        // IllegalStateException
    | ClassCast           // ClassCastException (a typed getter on a value of another type)
    | IndexOutOfBounds    // ArrayIndexOutOfBoundsException / IndexOutOfBoundsException
    | IOError             // a Python OSError while reading a file

  /** The outcome of a Java method that returns normally or throws. */
  datatype Result<T> = Ok(value: T) | Err(fault: Fault)

  /** The outcome of a void Java method. */
  datatype Outcome = Normal | Threw(fault: Fault)
}
