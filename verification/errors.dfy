/**
 The failures the engine reports. Each constructor stands for one `raise` of the
 source; `Kind` says which exception class of warmongo/exceptions.py (or of
 Python itself) it is.
 */
module Errors {
  import opened Values

  datatype ErrorKind = ValidationError | InvalidSchemaException | AttributeError | KeyError

  datatype Error =
    /** "Field '<key>' is of type '<expected>', received ..." */
    | TypeMismatch(key: string, expected: string, received: Value)
    /** "Field '<key>' is required but not found!" */
    | RequiredMissing(key: string)
    /** "Additional properties are not allowed: <every extra key>" */
    | AdditionalProperties(extra: set<string>)
    /** "Additional property '<name>' not allowed!", raised on assignment */
    | AdditionalProperty(name: string)
    /** "Unknown type '<typeName>'!" */
    | UnknownType(typeName: string)
    /** "... has no attribute '<name>'" */
    | NoAttribute(name: string)
    /** Indexing `schema["properties"]` on a schema that has none. */
    | MissingProperties
    /** `_fields` was given a value without `.get`/`.items` (see Documents.SetAttr). */
    | NotAMapping(received: Value)
  {
    function Kind(): ErrorKind {
      match this
      case UnknownType(_) => InvalidSchemaException
      case NoAttribute(_) => AttributeError
      case NotAMapping(_) => AttributeError
      case MissingProperties => KeyError
      case _ => ValidationError
    }
  }

  /** The outcome of a validation walk: it either returns or raises the first violation. */
  datatype Check = Pass | Fail(error: Error)
}
