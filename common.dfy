/**
 * Shared vocabulary of the model: nullable references, the exceptions the
 * library throws, and the fixed-width integer types of its public signatures.
 */
module Common {

  /** A C# reference that may be null: `None` stands for null. */
  datatype Option<+T> = None | Some(value: T)

  /** The exception kinds the library raises, with the parameter name or message it carries. */
  datatype Error =
    | ArgumentNull(paramName: string)
    | Argument(message: string)
    | ArgumentOutOfRange(paramName: string)
    | InvalidOperation(message: string)

  /** A call that either returns a value or throws. */
  datatype Result<+T> = Ok(value: T) | Err(error: Error)

  /** A call that returns nothing useful (the builder returns `this`) or throws. */
  datatype Outcome = Pass | Fail(error: Error)

  /** C#'s `int`. */
  newtype int32 = x: int | -0x8000_0000 <= x < 0x8000_0000

  /** C#'s `byte`. */
  newtype byte = x: int | 0 <= x < 0x100

  /** `string.IsNullOrEmpty`. */
  predicate IsNullOrEmpty(s: Option<string>) {
    s.None? || s.value == ""
  }

  /**
   * `char.IsWhiteSpace`: the Unicode space separators, line and paragraph
   * separators, and U+0009 to U+000D, U+0085, U+00A0.
   */
  predicate IsWhiteSpaceChar(c: char) {
    ('\t' <= c <= '\r') || c == ' ' || c == '\U{85}' || c == '\U{A0}'
    || c == '\U{1680}' || ('\U{2000}' <= c <= '\U{200A}') || c == '\U{2028}' || c == '\U{2029}'
    || c == '\U{202F}' || c == '\U{205F}' || c == '\U{3000}'
  }

  /** `string.IsNullOrWhiteSpace`. */
  predicate IsNullOrWhiteSpace(s: Option<string>) {
    s.None? || forall i :: 0 <= i < |s.value| ==> IsWhiteSpaceChar(s.value[i])
  }

  /** `string.Format` renders a null argument as the empty string. */
  function OrEmpty(s: Option<string>): string {
    if s.Some? then s.value else ""
  }
}
