/** The exceptions the two core files raise, and the result types that carry them. */
module Exceptions {

  /** One constructor per kind of exception the modelled code can raise. */
  datatype Error =
    | KeyError(key: string)            // d[k] on a dict that has no key k
    | TypeError                        // subscripting, `in`, len() or update() on a value of the wrong kind
    | AttributeError                   // .startswith, .items or .update on a value that lacks it
    | AssertionError                   // `assert len(parts) == 3` in _resolve_definition
    | SchemaFileNotFound(path: string) // "Error resolving local file reference: Schema file not found"
    | UrlFetchFailed(url: string)      // "Error resolving external URL reference: <status>"
    | EmptyArray                       // "Empty arrays are not allowed in Glue"
    | UnknownType                      // "Unknown type"
    | RuntimeError                     // "dictionary changed size during iteration"
    | RecursionError                   // the interpreter's recursion limit (the model's fuel) was reached

  /** A computation that returns a value or raises. */
  datatype Result<T> = Ok(value: T) | Err(error: Error)

  /** A computation that returns nothing or raises. */
  datatype Outcome = Pass | Fail(error: Error)

  datatype Option<T> = None | Some(value: T)
}
