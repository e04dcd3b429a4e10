/**
 * The small part of the Java platform the model relies on: nullable values,
 * exceptions as values, and 32-bit integer wrap-around.
 */
module Base {

  /** A Java reference that may be null: `None` stands for `null`. */
  datatype Option<+T> = None | Some(value: T)

  /** The text Java's string concatenation uses for a reference: `"null"` for null. */
  function ToJavaString(o: Option<string>): (r: string)
    ensures o.Some? ==> r == o.value
    ensures o.None? ==> r == "null"
  {
    match o
    case None => "null"
    case Some(s) => s
  }

  /** The exception classes the modelled code throws or lets propagate. */
  datatype Exception =
    | IllegalArgument        // java.lang.IllegalArgumentException
    | MissingFormatArgument  // java.util.MissingFormatArgumentException, an IllegalArgumentException
    | IllegalState           // java.lang.IllegalStateException
    | MalformedParameters    // java.lang.reflect.MalformedParametersException
    | UnsupportedOperation   // java.lang.UnsupportedOperationException
    | NullPointer            // java.lang.NullPointerException
    | IOFailure              // java.io.IOException

  /** The outcome of a Java call that returns a value or throws. */
  datatype Result<+T> = Ok(value: T) | Throw(ex: Exception) {
    predicate IsFailure() { Throw? }
    function PropagateFailure<U>(): Result<U>
      requires Throw?
    {
      Throw(ex)
    }
    function Extract(): T
      requires Ok?
    {
      value
    }
  }

  /** Whether `ex` is caught by a handler for `IllegalArgumentException`. */
  predicate IsIllegalArgument(ex: Exception)
  {
    ex == IllegalArgument || ex == MissingFormatArgument
  }

  /** The outcome of a Java `void` call: it returns or throws. */
  datatype Outcome = Pass | Fail(ex: Exception)

  /** A filesystem path (`java.nio.file.Path`), kept as its text. */
  datatype Path = Path(text: string)

  const TWO_32: int := 0x1_0000_0000

  /** Two's-complement wrap-around of Java `int` arithmetic. */
  function WrapInt32(x: int): (r: int)
    ensures -0x8000_0000 <= r < 0x8000_0000
    ensures (r - x) % TWO_32 == 0
  {
    var m := x % TWO_32;
    if m >= 0x8000_0000 then m - TWO_32 else m
  }

  /** Taking one more element of a sequence appends that element. */
  lemma TakeSnoc<T>(s: seq<T>, n: nat)
    requires 0 < n <= |s|
    ensures s[..n - 1] + [s[n - 1]] == s[..n]
  {
  }
}
