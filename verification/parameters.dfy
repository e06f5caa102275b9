/**
 * The parameter classifier (swagger/swagger.go, setInput and setParameter):
 * every tagged field of the input record becomes one parameter, a path
 * parameter when its tag names a `:` segment of the route and a query
 * parameter otherwise, typed from the field's kind.
 */
module Parameters {
  import opened Wrappers
  import opened Seqs
  import opened Strings
  import opened Types
  import opened OpenApi

  /** The element kinds the wire-type table has a row for. */
  predicate HasWireType(k: Type) {
    k.String? || k.Float32? || k.Float64? || IsIntegerKind(k)
  }

  predicate IsIntegerKind(k: Type) {
    k.Int8? || k.Uint8? || k.Int32? || k.Uint32? || k.Int? || k.Int64? || k.Uint? || k.Uint64?
  }

  /** The width of an integer kind as an OpenAPI format (Go's int and uint are 64 bits wide here). */
  function IntegerFormat(k: Type): string
    requires IsIntegerKind(k)
  {
    if k.Int8? || k.Uint8? then "int8"
    else if k.Int32? || k.Uint32? then "int32"
    else "int64"
  }

  /** The kind the table is consulted with: the element kind of a slice, the kind itself otherwise. */
  function TableKind(t: Type): Type {
    if t.Slice? then t.elem else t
  }

  /**
   * setParameter: the parameter with its type and format set, or None (the
   * source's nil) when the kind has no row. Strings and numbers take as
   * format the kind name of the field's own type, so a slice of them gets
   * "slice"; integers take their width.
   */
  function SetParameter(p: Parameter, t: Type): (r: Option<Parameter>)
    requires p.Simple?
    ensures r.Some? <==> HasWireType(TableKind(t))
    ensures r.Some? ==> r.value.Simple?
    ensures r.Some? ==> r.value == p.(typ := r.value.typ, format := r.value.format)
    ensures r.Some? ==> (r.value.typ == "string" <==> TableKind(t).String?)
    ensures r.Some? ==> (r.value.typ == "number" <==> (TableKind(t).Float32? || TableKind(t).Float64?))
    ensures r.Some? ==> (r.value.typ == "integer" <==> IsIntegerKind(TableKind(t)))
    ensures r.Some? && r.value.typ == "integer" ==> r.value.format == IntegerFormat(TableKind(t))
    ensures r.Some? && r.value.typ != "integer" ==> r.value.format == KindName(t)
  {
    var k := TableKind(t);
    var format := KindName(t);
    match k
    case String => Some(p.(typ := "string", format := format))
    case Float64 => Some(p.(typ := "number", format := format))
    case Float32 => Some(p.(typ := "number", format := format))
    case Int8 => Some(p.(typ := "integer", format := "int8"))
    case Uint8 => Some(p.(typ := "integer", format := "int8"))
    case Int32 => Some(p.(typ := "integer", format := "int32"))
    case Uint32 => Some(p.(typ := "integer", format := "int32"))
    case Int => Some(p.(typ := "integer", format := "int64"))
    case Int64 => Some(p.(typ := "integer", format := "int64"))
    case Uint => Some(p.(typ := "integer", format := "int64"))
    case Uint64 => Some(p.(typ := "integer", format := "int64"))
    case _ => None
  }

  /** The names of the `:` segments, without the `:`, in path order. */
  function PathParams(segs: seq<string>): seq<string>
    decreases |segs|
  {
    if segs == [] then []
    else
      var last := segs[|segs| - 1];
      PathParams(segs[..|segs| - 1]) + (if HasPrefix(last, ":") then [last[1..]] else [])
  }

  lemma PathParamsSnoc(segs: seq<string>, seg: string)
    ensures PathParams(segs + [seg]) == PathParams(segs) + (if HasPrefix(seg, ":") then [seg[1..]] else [])
  {
    assert (segs + [seg])[..|segs|] == segs;
  }

  /** A name is a path parameter exactly when `:name` is a segment. */
  lemma {:induction false} PathParamsExact(segs: seq<string>, name: string)
    ensures name in PathParams(segs) <==> (":" + name) in segs
    decreases |segs|
  {
    if segs != [] {
      var init, last := segs[..|segs| - 1], segs[|segs| - 1];
      PathParamsExact(init, name);
      assert segs == init + [last];
      if HasPrefix(last, ":") {
        assert last == ":" + last[1..];
      }
    }
  }

  /** The parameter for one tagged field: PathParam or QueryParam, required, rejecting empty values. */
  function ParamFor(name: string, t: Type, pathParams: seq<string>): (r: Option<Parameter>)
    ensures r.Some? <==> HasWireType(TableKind(t))
    ensures r.Some? ==> r.value.Simple? && r.value.name == name
    ensures r.Some? ==> r.value.required && !r.value.allowEmptyValue
    ensures r.Some? ==> (r.value.location == InPath <==> name in pathParams)
  {
    var loc := if name in pathParams then InPath else InQuery;
    SetParameter(Simple(name, loc, true, false, "", ""), t)
  }

  /** The AddParam argument for one field: none when the field is untagged. */
  function FieldParam(f: Field, tag: string, pathParams: seq<string>): seq<Option<Parameter>> {
    var name := TagGet(f.tags, tag);
    if name == "" then [] else [ParamFor(name, f.typ, pathParams)]
  }

  /** The AddParam arguments for fields i.. of struct t, in field order; untagged fields give none. */
  function InputParams(t: Type, i: nat, tag: string, pathParams: seq<string>): seq<Option<Parameter>>
    requires t.Struct? && i <= |t.fields|
    decreases |t.fields| - i
  {
    if i == |t.fields| then []
    else FieldParam(t.fields[i], tag, pathParams) + InputParams(t, i + 1, tag, pathParams)
  }

  /** The tagged fields i.. of struct t, in order. */
  function TaggedFields(t: Type, i: nat, tag: string): (r: seq<Field>)
    requires t.Struct? && i <= |t.fields|
    ensures forall k :: 0 <= k < |r| ==> TagGet(r[k].tags, tag) != ""
    decreases |t.fields| - i
  {
    if i == |t.fields| then []
    else
      (if TagGet(t.fields[i].tags, tag) == "" then [] else [t.fields[i]]) + TaggedFields(t, i + 1, tag)
  }

  /** A field occurs among the tagged fields as often as among the fields if its tag is not empty, else never. */
  lemma {:induction false} TaggedFieldCount(t: Type, i: nat, tag: string, g: Field)
    requires t.Struct? && i <= |t.fields|
    ensures multiset(TaggedFields(t, i, tag))[g] == if TagGet(g.tags, tag) != "" then multiset(t.fields[i..])[g] else 0
    decreases |t.fields| - i
  {
    if i < |t.fields| {
      var f := t.fields[i];
      var rest := TaggedFields(t, i + 1, tag);
      TaggedFieldCount(t, i + 1, tag, g);
      MultisetHead(t.fields[i..]);
      assert t.fields[i..][1..] == t.fields[i + 1..];
      if TagGet(f.tags, tag) != "" {
        MultisetHead(TaggedFields(t, i, tag));
      }
    }
  }

  /**
   * The tagged fields are exactly the fields whose tag is not empty, each
   * as often as it occurs.
   */
  lemma TaggedFieldsExact(t: Type, i: nat, tag: string)
    requires t.Struct? && i <= |t.fields|
    ensures forall f :: multiset(TaggedFields(t, i, tag))[f] ==
                          if TagGet(f.tags, tag) != "" then multiset(t.fields[i..])[f] else 0
  {
    forall f ensures multiset(TaggedFields(t, i, tag))[f] ==
                       if TagGet(f.tags, tag) != "" then multiset(t.fields[i..])[f] else 0
    {
      TaggedFieldCount(t, i, tag, f);
    }
  }

  /** The tagged fields keep the order of the fields. */
  lemma {:induction false} TaggedFieldsInOrder(t: Type, i: nat, tag: string)
    requires t.Struct? && i <= |t.fields|
    ensures SubsequenceOf(TaggedFields(t, i, tag), t.fields[i..])
    decreases |t.fields| - i
  {
    if i < |t.fields| {
      var f := t.fields[i];
      var rest := TaggedFields(t, i + 1, tag);
      TaggedFieldsInOrder(t, i + 1, tag);
      assert t.fields[i..] == [f] + t.fields[i + 1..];
      SubsequenceCons(f, rest, t.fields[i + 1..]);
      if TagGet(f.tags, tag) == "" {
        assert TaggedFields(t, i, tag) == rest;
      } else {
        assert TaggedFields(t, i, tag) == [f] + rest;
      }
    }
  }

  /** Exactly one parameter per tagged field, in field order. */
  lemma {:induction false} OneParamPerTaggedField(t: Type, i: nat, tag: string, pathParams: seq<string>)
    requires t.Struct? && i <= |t.fields|
    ensures |InputParams(t, i, tag, pathParams)| == |TaggedFields(t, i, tag)|
    ensures forall k :: 0 <= k < |TaggedFields(t, i, tag)| ==>
      InputParams(t, i, tag, pathParams)[k] ==
        ParamFor(TagGet(TaggedFields(t, i, tag)[k].tags, tag), TaggedFields(t, i, tag)[k].typ, pathParams)
    decreases |t.fields| - i
  {
    if i < |t.fields| {
      OneParamPerTaggedField(t, i + 1, tag, pathParams);
      var ps, fs := InputParams(t, i + 1, tag, pathParams), TaggedFields(t, i + 1, tag);
      var p := FieldParam(t.fields[i], tag, pathParams);
      var f: seq<Field> := if TagGet(t.fields[i].tags, tag) == "" then [] else [t.fields[i]];
      assert |p| == |f|;
      assert InputParams(t, i, tag, pathParams) == p + ps;
      assert TaggedFields(t, i, tag) == f + fs;
      forall k | 0 <= k < |f + fs|
        ensures (p + ps)[k] == ParamFor(TagGet((f + fs)[k].tags, tag), (f + fs)[k].typ, pathParams)
      {
        if k >= |f| {
          assert (p + ps)[k] == ps[k - |p|] && (f + fs)[k] == fs[k - |f|];
        }
      }
    }
  }

  /**
   * Each parameter setInput hands over is, when present, a required
   * parameter rejecting empty values, named by its field's tag, and in the
   * path exactly when the route has the segment `:name`.
   */
  lemma Classification(t: Type, tag: string, path: string, k: nat)
    requires t.Struct?
    requires k < |InputParams(t, 0, tag, PathParams(Split(path, '/')))|
    ensures k < |TaggedFields(t, 0, tag)|
    ensures var name := TagGet(TaggedFields(t, 0, tag)[k].tags, tag);
      var p := InputParams(t, 0, tag, PathParams(Split(path, '/')))[k];
      p.Some? ==>
        p.value.Simple? && p.value.name == name && p.value.required && !p.value.allowEmptyValue
        && (p.value.location == InPath <==> (":" + name) in Split(path, '/'))
  {
    var pp := PathParams(Split(path, '/'));
    OneParamPerTaggedField(t, 0, tag, pp);
    PathParamsExact(Split(path, '/'), TagGet(TaggedFields(t, 0, tag)[k].tags, tag));
  }
}
