/** Values shared by every part of the model: the .NET exceptions the core
    raises or lets through, and the Result/Option wrappers used in place of
    throwing. */
module Common {

  /** The exceptions the core throws, catches or lets propagate.
      `Custom` stands for any other exception raised by code the core calls
      (a plugin, a configuration action, a handler); `name` is its type name. */
  datatype Exception =
    | ArgumentException(message: string)         // includes a duplicate dictionary key
    | ArgumentNullException(paramName: string)
    | ArgumentOutOfRangeException
    | KeyNotFoundException
    | InvalidOperationException                  // Enumerable.First on an empty sequence
    | OverflowException                          // array allocation with a negative size
    | MemberAccessException                      // instantiating an abstract class
    | TargetInvocationException(inner: Exception) // wraps what reflective invocation throws
    | NotImplementedException
    | PluginException(message: string)
    | Exception(message: string)                // a bare `System.Exception`, as ParseKeyPairs throws
    | Custom(name: string)

  datatype Option<+T> = None | Some(value: T)

  datatype Result<+T> = Ok(value: T) | Err(error: Exception)

  /** The message of the duplicate-key ArgumentException thrown by Dictionary.Add. */
  const DuplicateKey: string := "An item with the same key has already been added."
}
