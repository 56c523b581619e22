/** Type model and compile-time diagnostics of valforge (internal/vtypes/types.go). */
module VTypes {

  /** The closed enumeration of field kinds. `Unknown` is the Go zero value. */
  datatype TypeKind =
    | Unknown
    | String
    | Int | Int8 | Int16 | Int32 | Int64
    | Uint | Uint8 | Uint16 | Uint32 | Uint64
    | Float32 | Float64 | Bool
    | Struct

  /** The rendering used in diagnostics (`TypeKind.String()`): a non-empty lower-case name. */
  function KindName(k: TypeKind): (r: string)
    ensures r == "unknown" <==> k == Unknown
    ensures r != [] && forall i :: 0 <= i < |r| ==> !('A' <= r[i] <= 'Z')
  {
    match k
    case String => "string"
    case Int => "int"
    case Int8 => "int8"
    case Int16 => "int16"
    case Int32 => "int32"
    case Int64 => "int64"
    case Uint => "uint"
    case Uint8 => "uint8"
    case Uint16 => "uint16"
    case Uint32 => "uint32"
    case Uint64 => "uint64"
    case Float32 => "float32"
    case Float64 => "float64"
    case Bool => "bool"
    case Struct => "struct"
    case Unknown => "unknown"
  }

  /** Every kind has its own name, so a diagnostic's kind name identifies the kind. */
  lemma KindNamesDistinct(a: TypeKind, b: TypeKind)
    ensures KindName(a) == KindName(b) <==> a == b
  {
  }

  /** Classification of a field's type; the Go `types.Type` values are not modelled. */
  datatype FieldType = FieldType(kind: TypeKind, isPointer: bool, isSlice: bool)

  /** The zero value of `FieldType`. */
  const DefaultFieldType := FieldType(Unknown, false, false)

  /** A struct field with its validation tag already split into rules. */
  datatype ValidationField = ValidationField(
    name: string,
    fieldType: FieldType,
    jsonName: string,
    rules: map<string, string>)

  datatype ValidationStruct = ValidationStruct(
    name: string,
    packageName: string,
    fields: seq<ValidationField>)

  datatype ErrorType = Incompatible | Missing | Invalid | Duplicate

  datatype CompilerError = CompilerError(
    errorType: ErrorType,
    message: string,
    field: string,
    structName: string,
    rule: string,
    position: string)
  {
    /** `CompilerError.Error()`: the message, unchanged. */
    function Error(): (r: string)
      ensures r == message
    {
      message
    }
  }

  /** `CompilerErrors.Error()`: the combined description of a diagnostic list. */
  function ErrorsMessage(errs: seq<CompilerError>): (r: string)
    ensures errs == [] ==> r == "no errors"
    ensures |errs| == 1 ==> r == errs[0].message
    ensures |errs| >= 2 ==> r == errs[0].message + " (and more)"
  {
    if |errs| == 0 then "no errors"
    else if |errs| == 1 then errs[0].Error()
    else errs[0].Error() + " (and more)"
  }

  /** `CompilerErrors.HasErrors()`. */
  function HasErrors(errs: seq<CompilerError>): (b: bool)
    ensures b <==> errs != []
  {
    |errs| > 0
  }

  /** A `CompilerErrors` slice variable, updated in place by the pointer-receiver `Add`. */
  class ErrorList {
    var items: seq<CompilerError>

    constructor ()
      ensures items == []
    {
      items := [];
    }

    /** `Add` appends at the end and leaves every earlier entry as it was. */
    method Add(e: CompilerError)
      modifies this
      ensures |items| == |old(items)| + 1
      ensures items[..|old(items)|] == old(items) && items[|old(items)|] == e
    {
      items := items + [e];
    }
  }
}
