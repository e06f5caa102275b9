/**
 * An explicit descriptor of the Go types the generator inspects, in place
 * of run-time reflection. `Type` carries the reflect kind; structs carry
 * their name and their fields in declaration order, each field its struct
 * tag as a key/value map. The datatype is inductive, so a type graph with a
 * cycle (a struct that contains itself through its fields) cannot be
 * described: this is the termination measure the recursive definition
 * builder relies on.
 */
module Types {

  datatype Type =
    | Bool
    | Int | Int8 | Int16 | Int32 | Int64
    | Uint | Uint8 | Uint16 | Uint32 | Uint64
    | Float32 | Float64
    | String
    | Ptr(elem: Type)
    | Slice(elem: Type)
    | Struct(name: string, fields: seq<Field>)
    | Interface
    | Other(kind: string)   // Array, Map, Chan, Func, Complex64, ... by their kind name

  datatype Field = Field(tags: map<string, string>, typ: Type)

  /** reflect.StructTag.Get: the value under a key, or "" when the key is absent. */
  function TagGet(tags: map<string, string>, key: string): string {
    if key in tags then tags[key] else ""
  }

  /** reflect.Kind.String() */
  function KindName(t: Type): string {
    match t
    case Bool => "bool"
    case Int => "int"
    case Int8 => "int8"
    case Int16 => "int16"
    case Int32 => "int32"
    case Int64 => "int64"
    case Uint => "uint"
    case Uint8 => "uint8"
    case Uint16 => "uint16"
    case Uint32 => "uint32"
    case Uint64 => "uint64"
    case Float32 => "float32"
    case Float64 => "float64"
    case String => "string"
    case Ptr(_) => "ptr"
    case Slice(_) => "slice"
    case Struct(_, _) => "struct"
    case Interface => "interface"
    case Other(k) => k
  }

  /**
   * reflect.Type.Name(): a predeclared type is named by its kind (`int`,
   * `string`, ...), a struct by its declared name; pointers, slices,
   * `interface{}` and the other composite kinds are unnamed.
   */
  function TypeName(t: Type): string {
    match t
    case Struct(name, _) => name
    case Ptr(_) => ""
    case Slice(_) => ""
    case Interface => ""
    case Other(k) => if k in {"uintptr", "complex64", "complex128"} then k else ""
    case _ => KindName(t)
  }

  /** `if t.Kind() == reflect.Ptr { t = t.Elem() }`: strip one pointer level. */
  function Elem1(t: Type): (r: Type)
    ensures t.Ptr? ==> r == t.elem
    ensures !t.Ptr? ==> r == t
    ensures Size(r) <= Size(t)
  {
    if t.Ptr? then t.elem else t
  }

  /** reflect.Indirect(reflect.ValueOf(v)).Type() for a value of type t. */
  function ValueType(t: Type): Type {
    Elem1(t)
  }

  /** A type whose fields the generator may walk: a struct, or a pointer to one. */
  predicate IsRecord(t: Type) {
    Elem1(t).Struct?
  }

  /** Follow a chain of pointers to the first type that is not a pointer. */
  function Deref(t: Type): (r: Type)
    ensures !r.Ptr?
    ensures Size(r) <= Size(t)
    ensures !t.Ptr? ==> r == t
  {
    if t.Ptr? then Deref(t.elem) else t
  }

  /** The number of constructors in a descriptor: the termination measure. */
  function Size(t: Type): nat
    decreases t, 1
  {
    match t
    case Ptr(e) => 1 + Size(e)
    case Slice(e) => 1 + Size(e)
    case Struct(_, fields) => 1 + FieldsSize(t, 0)
    case _ => 1
  }

  /** The sizes of the field types of struct t from field i on, plus one per field. */
  function FieldsSize(t: Type, i: nat): nat
    requires t.Struct? && i <= |t.fields|
    decreases t, 0, |t.fields| - i
  {
    if i == |t.fields| then 0 else 1 + Size(t.fields[i].typ) + FieldsSize(t, i + 1)
  }

  /** Every field type is smaller than the fields taken together. */
  lemma {:induction false} FieldSmaller(t: Type, from: nat, i: nat)
    requires t.Struct? && from <= i < |t.fields|
    ensures Size(t.fields[i].typ) < FieldsSize(t, from)
    decreases i - from
  {
    if from < i {
      FieldSmaller(t, from + 1, i);
    }
  }
}
