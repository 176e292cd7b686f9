/** Optional values, results and the errors crankd raises while it sets itself up. */
module Outcomes {

  datatype Option<T> = None | Some(value: T)

  /** The exceptions of bin/crankd.py that the model distinguishes. */
  datatype Error =
    | NoHandlerKind(event: string)                  // AttributeError: no command, function or method key
    | CannotResolve(name: string)                   // RuntimeError wrapping ImportError/AttributeError
    | EmptyModuleName                               // ValueError from __import__("")
    | NotCallable(name: string)                     // TypeError: partial() of a non-callable attribute
    | NotInstantiable(className: string)            // the "class" name does not denote a class
    | ConstructorRaised(className: string)          // the class's __init__ raised or needed arguments
    | OptionsUndefined(className: string)           // NameError: the global `options` does not exist
    | MissingMethod(className: string, methodName: string)  // getattr fails or the class lacks the method
    | PathNotFound(path: string)                    // AttributeError: watched path does not exist
    | StatFailed(path: string)                      // OSError from os.stat
    | MissingKey(key: string)                       // KeyError: no handler for a changed key
    | ArgumentClash(parameter: string)              // TypeError: got multiple values for a keyword argument

  datatype Result<T> = Ok(value: T) | Err(error: Error)
}
