/** Shared value types: optional values, results, and the Python exceptions the model distinguishes. */
module Common {

  datatype Option<+T> = None | Some(value: T)

  datatype Result<+T, +E> = Ok(value: T) | Err(error: E)

  /** Exceptions that escape the modelled code (none of them is caught by it). */
  datatype PyError =
    | AttributeError        // `.get` on a value that is not a dict
    | KeyError(key: string) // `d[key]` on a dict without `key`
    | TypeError             // `*v` on a value that is not iterable
    | IndexError            // `xs[i]` out of range
    | ValueError            // an argument with a rejected value
    | InputFailed           // an input primitive raised (including the pyautogui fail-safe)
}
