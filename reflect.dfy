/** Length and emptiness of a dynamically typed value (pkg/experimental/reflect/reflect.go). */
module Reflect {
  import opened Wrappers

  /** The kinds of Go's reflect package. */
  datatype Kind =
    | Bool | Int | Int8 | Int16 | Int32 | Int64
    | Uint | Uint8 | Uint16 | Uint32 | Uint64 | Uintptr
    | Float32 | Float64 | Complex64 | Complex128
    | Array | Chan | Func | Interface | Map | Ptr | Slice | String | Struct | UnsafePointer

  /** The kinds reflect can take the length of. */
  predicate HasLength(k: Kind) {
    k in {Array, Chan, Map, Slice, String}
  }

  /**
   * An interface{} value: the nil interface, or a value with its kind, its type's name, its
   * `%+v` rendering and, for a kind with a length, that length (the queued elements of a
   * channel, the entries of a map, the bytes of a string).
   */
  datatype Value =
    | Nil
    | Of(kind: Kind, typeName: string, rendered: string, length: nat)

  /** The three errors of the package. */
  datatype ReflectError =
    | UnexpectedNilValue
    | UnexpectedEmptyValue
    | UnsupportedValueType(value: Value)
  {
    function Error(): string {
      match this
      case UnexpectedNilValue => "nil value"
      case UnexpectedEmptyValue => "empty value"
      case UnsupportedValueType(v) =>
        var typeName := if v.Of? then v.typeName else "%!s(<nil>)";
        var rendered := if v.Of? then v.rendered else "<nil>";
        "unsupported type of '" + typeName + "' with value '" + rendered + "'"
    }
  }

  /** Len: 0 and an error for nil; the length for a kind that has one; -1 and an error otherwise. */
  function Len(value: Value): (r: (int, Option<ReflectError>))
    ensures r.1.None? <==> value.Of? && HasLength(value.kind)
    ensures r.1.None? ==> r.0 == value.length && r.0 >= 0
    ensures value.Nil? ==> r == (0, Some(UnexpectedNilValue))
    ensures value.Of? && !HasLength(value.kind) ==> r == (-1, Some(UnsupportedValueType(value)))
  {
    if value.Nil? then (0, Some(UnexpectedNilValue))
    else
      var length: int := value.length;
      match value.kind
      case Array => (length, None)
      case Chan => (length, None)
      case Map => (length, None)
      case Slice => (length, None)
      case String => (length, None)
      case _ => (-1, Some(UnsupportedValueType(value)))
  }

  /** CheckEmpty: Len's error unchanged, "empty value" for length 0, otherwise no error. */
  function CheckEmpty(value: Value): (r: Option<ReflectError>)
    ensures Len(value).1.Some? ==> r == Len(value).1
    ensures Len(value).1.None? ==> (r == Some(UnexpectedEmptyValue) <==> Len(value).0 == 0)
    ensures Len(value).1.None? && Len(value).0 != 0 ==> r.None?
  {
    var (length, err) := Len(value);
    if err.Some? then err
    else if length == 0 then Some(UnexpectedEmptyValue)
    else None
  }

  /** CheckEmpty passes exactly the values of a kind with a length whose length is positive. */
  lemma CheckEmptyPasses(value: Value)
    ensures CheckEmpty(value).None? <==> value.Of? && HasLength(value.kind) && value.length > 0
  {
  }

  /** The messages of the three errors; an unsupported value's names its type and rendering. */
  lemma ErrorMessages(typeName: string, rendered: string, k: Kind, n: nat)
    requires !HasLength(k)
    ensures CheckEmpty(Nil).value.Error() == "nil value"
    ensures CheckEmpty(Of(Slice, "[]int", "[]", 0)).value.Error() == "empty value"
    ensures CheckEmpty(Of(k, typeName, rendered, n)).value.Error()
         == "unsupported type of '" + typeName + "' with value '" + rendered + "'"
  {
  }
}
