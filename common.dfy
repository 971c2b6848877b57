/** Vocabulary shared by every module of the model: bytes, .NET string units and the
    exceptions the key-unwrapping code can raise, as a result type. */
module Common {

  /** An unsigned 8-bit value, .NET's `byte`. */
  newtype byte = x: int | 0 <= x < 0x100

  /** A UTF-16 code unit, the element type of a .NET `string` (`char`). */
  type CodeUnit = x: int | 0 <= x < 0x1_0000

  /** The exceptions of the modelled code, one constructor per .NET exception class. */
  datatype Error =
    | EndOfStream                    // System.IO.EndOfStreamException
    | Format(message: string)        // System.FormatException
    | Argument(message: string)      // System.ArgumentException
    | Cryptographic(message: string) // System.Security.Cryptography.CryptographicException

  /** The one error a wrong password is reported with. */
  const WrongPassword: Error := Argument("wrong password")

  /** A value, or the exception that was thrown instead. */
  datatype Result<+T> = Ok(value: T) | Err(error: Error) {
    predicate IsFailure() {
      Err?
    }

    function PropagateFailure<U>(): Result<U>
      requires Err?
    {
      Err(error)
    }

    function Extract(): T
      requires Ok?
    {
      value
    }
  }

  function Min(a: int, b: int): int {
    if a <= b then a else b
  }
}
