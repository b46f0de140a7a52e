/** Failure-carrying return values used in place of Python's None and exceptions. */
module Wrappers {

  /** Python's `Optional[T]`: a value or `None`. */
  datatype Option<+T> = None | Some(value: T)

  /** The outcome of a call that returns nothing on success and raises on failure. */
  datatype Outcome<+E> = Pass | Fail(error: E)

  /** The outcome of a call that returns a value on success and raises on failure. */
  datatype Result<+T, +E> = Ok(value: T) | Err(error: E)

  /** An exception as the callers see it: its class name and its message. */
  datatype Exception = Exception(kind: string, message: string)

  /** The metadata dictionary carried by documents and chunks (values kept as text). */
  type Metadata = map<string, string>

  /** `metadata or {}`: a missing (or empty) mapping becomes `{}`. */
  function MetadataOrEmpty(metadata: Option<Metadata>): Metadata
  {
    if metadata.Some? then metadata.value else map[]
  }
}
