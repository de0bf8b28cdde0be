/** Shared result types: the converters signal failure by raising Python
    exceptions; the model returns them as values instead. */
module Common {

  /** The Python exceptions the converters can raise (or catch). */
  datatype Error =
    | IndexError          // a list or string index past its end
    | KeyError(key: string)  // a missing dictionary key
    | ValueError          // a string that int() or float() rejects, or a failed broadcast
    | NoFilesFound        // the explicit `raise Exception("No files found!")`
    | Unbound             // a local variable read before any assignment
    | ZeroDivisionError   // a float division by zero
    | TypeError           // an operation on a value of the wrong kind (iterating a 0-d array)
    | NameInUse(name: string)  // netCDF refusing a second variable of the same name
    | AttributeError      // a netCDF global attribute the file does not have

  datatype Option<+T> = None | Some(value: T)

  datatype Result<+T> = Ok(value: T) | Err(error: Error) {
    predicate IsFailure() { Err? }

    function PropagateFailure<U>(): Result<U>
      requires Err?
    {
      Err(error)
    }

    function Extract(): T
      requires Ok?
    {
      value
    }
  }
}
