/**
 * The schema definition builder (swagger/swagger.go, addDefinition), as
 * functions: the property each tagged field contributes, the definition of
 * a record, and the definitions map after a record and every record
 * reachable from it through its fields have been registered.
 */
module Definitions {
  import opened Strings
  import opened Types
  import opened OpenApi

  /**
   * The property name a tag exposes: with a `,` in the tag, the trimmed text
   * before the first `,` (the modifiers such as `omitempty` are dropped);
   * without one, the tag exactly as written.
   */
  function PropertyName(tag: string): (r: string)
    ensures ',' !in tag ==> r == tag
    ensures ',' in tag ==> ',' !in r && (|r| > 0 ==> !IsSpace(r[0]) && !IsSpace(r[|r| - 1]))
  {
    // `len(fNameParts) > 1` holds exactly when the tag has a `,` (SplitSeveral)
    if ',' in tag then
      SplitPiecesFree(tag, ',');
      TrimSpace(Split(tag, ',')[0])
    else
      tag
  }

  /**
   * A tag with a `,` exposes the text before its first `,` with the white
   * space around it cut off, whatever follows the `,`.
   */
  lemma PropertyNameTrims(name: string, modifiers: string)
    requires ',' !in name
    ensures PropertyName(name + "," + modifiers) == TrimSpace(name)
  {
    SplitAtFirst(name, ',', modifiers);
    assert name + "," + modifiers == name + [','] + modifiers;
  }

  /** A name followed by modifiers exposes the name, if the name has no `,` and no white space at its ends. */
  lemma NameBeforeModifiers(name: string, modifiers: string)
    requires ',' !in name
    requires |name| > 0 ==> !IsSpace(name[0]) && !IsSpace(name[|name| - 1])
    ensures PropertyName(name + "," + modifiers) == name
  {
    PropertyNameTrims(name, modifiers);
    TrimSpaceTrimmed(name);
  }

  /** The wrapper a field's outer kind calls for (the source's wrapFunc closures). */
  datatype Wrap = Identity | ArrayOf

  function WrapOf(t: Type): Wrap {
    if t.Slice? then ArrayOf else Identity
  }

  function ApplyWrap(w: Wrap, s: Schema): Schema {
    match w
    case Identity => s
    case ArrayOf => Array(s)
  }

  /** The type under the outer wrapper: one pointer or slice level is removed. */
  function Unwrapped(t: Type): (r: Type)
    ensures Size(r) <= Size(t)
  {
    if t.Ptr? || t.Slice? then t.elem else t
  }

  /** The type the kind dispatch finally looks at: the unwrapped type with any further pointers followed. */
  function FieldTarget(t: Type): (r: Type)
    ensures !r.Ptr? && Size(r) <= Size(t)
  {
    Deref(Unwrapped(t))
  }

  /** The kinds the dispatch has a case for; every other kind falls back to a string. */
  predicate HasSchemaCase(t: Type) {
    t.String? || t.Int8? || t.Uint8? || t.Int32? || t.Uint32? || t.Int? || t.Uint? || t.Int64? || t.Uint64?
    || t.Float32? || t.Float64? || t.Struct? || t.Bool? || t.Interface?
  }

  /** The property schema for a non-pointer kind. */
  function Dispatch(t: Type): (s: Schema)
    requires !t.Ptr?
    ensures s.Ref? <==> t.Struct?
    ensures t.Struct? ==> s == Ref(DefRef(t.name))
    ensures s.Object? <==> t.Interface?
    ensures s.Object? ==> s.properties == map[]
    ensures s.Array? <==> (t.Int8? || t.Uint8?)
    ensures s.Array? ==> s.items == Prop(Int8Prop)
    ensures s == Prop(Int32Prop) <==> (t.Int32? || t.Uint32?)
    ensures s == Prop(Int64Prop) <==> (t.Int? || t.Uint? || t.Int64? || t.Uint64?)
    ensures s == Prop(Float32Prop) <==> t.Float32?
    ensures s == Prop(Float64Prop) <==> t.Float64?
    ensures s == Prop(BoolProp) <==> t.Bool?
    ensures s == Prop(StringProp) <==> (t.String? || !HasSchemaCase(t))
  {
    match t
    case String => Prop(StringProp)
    case Int8 => Array(Prop(Int8Prop))
    case Uint8 => Array(Prop(Int8Prop))
    case Int32 => Prop(Int32Prop)
    case Uint32 => Prop(Int32Prop)
    case Int => Prop(Int64Prop)
    case Uint => Prop(Int64Prop)
    case Int64 => Prop(Int64Prop)
    case Uint64 => Prop(Int64Prop)
    case Float32 => Prop(Float32Prop)
    case Float64 => Prop(Float64Prop)
    case Struct(name, _) => Ref(DefRef(name))
    case Bool => Prop(BoolProp)
    case Interface => Object(map[])
    case _ => Prop(StringProp)
  }

  /**
   * The property schema of a field of type t: a slice is one array wrapper
   * around the dispatch of its (dereferenced) element type; anything else,
   * a pointer chain included, is the dispatch of its dereferenced type.
   */
  function FieldSchema(t: Type): (s: Schema)
    ensures t.Slice? ==> s == Array(Dispatch(Deref(t.elem)))
    ensures !t.Slice? ==> s == Dispatch(Deref(t))
  {
    ApplyWrap(WrapOf(t), Dispatch(FieldTarget(t)))
  }

  /** Field f is tagged and exposes property k. */
  predicate Names(f: Field, tag: string, k: string) {
    TagGet(f.tags, tag) != "" && PropertyName(TagGet(f.tags, tag)) == k
  }

  /** SetProperty for one field: an untagged field sets nothing. */
  function SetField(acc: map<string, Schema>, f: Field, tag: string): (r: map<string, Schema>)
    ensures forall k :: Names(f, tag, k) ==> k in r && r[k] == FieldSchema(f.typ)
    ensures forall k :: !Names(f, tag, k) ==> (k in r <==> k in acc) && (k in acc ==> r[k] == acc[k])
  {
    var name := TagGet(f.tags, tag);
    if name == "" then acc else acc[PropertyName(name) := FieldSchema(f.typ)]
  }

  /** The properties map after fields i.. of struct t have been set on acc, in order. */
  function Properties(t: Type, i: nat, tag: string, acc: map<string, Schema>): map<string, Schema>
    requires t.Struct? && i <= |t.fields|
    decreases |t.fields| - i
  {
    if i == |t.fields| then acc
    else Properties(t, i + 1, tag, SetField(acc, t.fields[i], tag))
  }

  /** The definition of a record: an object whose properties are its tagged fields. */
  function Definition(t: Type, tag: string): Schema
    requires t.Struct?
  {
    Object(Properties(t, 0, tag, map[]))
  }

  /** The names the tagged fields i.. of struct t expose. */
  function ExposedNames(t: Type, i: nat, tag: string): set<string>
    requires t.Struct? && i <= |t.fields|
    decreases |t.fields| - i
  {
    if i == |t.fields| then {}
    else
      var name := TagGet(t.fields[i].tags, tag);
      (if name == "" then {} else {PropertyName(name)}) + ExposedNames(t, i + 1, tag)
  }

  /** The properties are exactly the names the tagged fields expose. */
  lemma {:induction false} PropertiesKeys(t: Type, i: nat, tag: string, acc: map<string, Schema>)
    requires t.Struct? && i <= |t.fields|
    ensures Properties(t, i, tag, acc).Keys == acc.Keys + ExposedNames(t, i, tag)
    decreases |t.fields| - i
  {
    if i < |t.fields| {
      var acc' := SetField(acc, t.fields[i], tag);
      PropertiesKeys(t, i + 1, tag, acc');
      var name := TagGet(t.fields[i].tags, tag);
      assert acc'.Keys == acc.Keys + (if name == "" then {} else {PropertyName(name)});
    }
  }

  /** When several fields expose the same name, the last of them gives the property. */
  lemma {:induction false} PropertyLastWins(t: Type, i: nat, tag: string, acc: map<string, Schema>, j: nat, k: string)
    requires t.Struct? && i <= j < |t.fields|
    requires Names(t.fields[j], tag, k)
    requires forall l :: j < l < |t.fields| ==> !Names(t.fields[l], tag, k)
    ensures k in Properties(t, i, tag, acc) && Properties(t, i, tag, acc)[k] == FieldSchema(t.fields[j].typ)
    decreases |t.fields| - i
  {
    if i < j {
      var m := SetField(acc, t.fields[i], tag);
      PropertyLastWins(t, i + 1, tag, m, j, k);
      assert Properties(t, i, tag, acc) == Properties(t, i + 1, tag, m);
    } else {
      PropertySetHere(t, j, tag, acc, k);
    }
  }

  /** The field that exposes k sets it, and no later field exposes k. */
  lemma PropertySetHere(t: Type, j: nat, tag: string, acc: map<string, Schema>, k: string)
    requires t.Struct? && j < |t.fields|
    requires Names(t.fields[j], tag, k)
    requires forall l :: j < l < |t.fields| ==> !Names(t.fields[l], tag, k)
    ensures k in Properties(t, j, tag, acc) && Properties(t, j, tag, acc)[k] == FieldSchema(t.fields[j].typ)
  {
    var m := SetField(acc, t.fields[j], tag);
    assert m == acc[k := FieldSchema(t.fields[j].typ)];
    PropertyKept(t, j + 1, tag, m, k);
  }

  /** A name no later field exposes keeps the value it had. */
  lemma {:induction false} PropertyKept(t: Type, i: nat, tag: string, acc: map<string, Schema>, k: string)
    requires t.Struct? && i <= |t.fields|
    requires forall l :: i <= l < |t.fields| ==> !Names(t.fields[l], tag, k)
    ensures k in Properties(t, i, tag, acc) <==> k in acc
    ensures k in acc ==> Properties(t, i, tag, acc)[k] == acc[k]
    decreases |t.fields| - i
  {
    if i < |t.fields| {
      PropertyKept(t, i + 1, tag, SetField(acc, t.fields[i], tag), k);
    }
  }

  /** The field i of struct t registers a nested record: it is tagged and its target is a struct. */
  predicate RegistersNested(t: Type, i: nat, tag: string)
    requires t.Struct? && i < |t.fields|
  {
    TagGet(t.fields[i].tags, tag) != "" && FieldTarget(t.fields[i].typ).Struct?
  }

  /**
   * The definitions map after registering struct t: first every nested
   * record, field by field, then t itself under its name.
   */
  function AddDef(defs: map<string, Schema>, t: Type, tag: string): map<string, Schema>
    requires t.Struct?
    decreases Size(t), 1
  {
    AddNested(defs, t, 0, tag)[t.name := Definition(t, tag)]
  }

  /** The registrations made by fields i.. of struct t. */
  function AddNested(defs: map<string, Schema>, t: Type, i: nat, tag: string): map<string, Schema>
    requires t.Struct? && i <= |t.fields|
    decreases Size(t), 0, |t.fields| - i
  {
    if i == |t.fields| then defs
    else
      var defs' :=
        if RegistersNested(t, i, tag) then
          FieldSmaller(t, 0, i);
          AddDef(defs, FieldTarget(t.fields[i].typ), tag)
        else defs;
      AddNested(defs', t, i + 1, tag)
  }

  /** The names of struct t and of every struct reachable from it through tagged fields. */
  function Reachable(t: Type, tag: string): set<string>
    requires t.Struct?
    decreases Size(t), 1
  {
    {t.name} + ReachableFrom(t, 0, tag)
  }

  function ReachableFrom(t: Type, i: nat, tag: string): set<string>
    requires t.Struct? && i <= |t.fields|
    decreases Size(t), 0, |t.fields| - i
  {
    if i == |t.fields| then {}
    else
      (if RegistersNested(t, i, tag) then
         FieldSmaller(t, 0, i);
         Reachable(FieldTarget(t.fields[i].typ), tag)
       else {})
      + ReachableFrom(t, i + 1, tag)
  }

  /** Registering a record adds exactly the names reachable from it. */
  lemma {:induction false} AddDefKeys(defs: map<string, Schema>, t: Type, tag: string)
    requires t.Struct?
    ensures AddDef(defs, t, tag).Keys == defs.Keys + Reachable(t, tag)
    decreases Size(t), 1
  {
    AddNestedKeys(defs, t, 0, tag);
  }

  lemma {:induction false} AddNestedKeys(defs: map<string, Schema>, t: Type, i: nat, tag: string)
    requires t.Struct? && i <= |t.fields|
    ensures AddNested(defs, t, i, tag).Keys == defs.Keys + ReachableFrom(t, i, tag)
    decreases Size(t), 0, |t.fields| - i, 1
  {
    if i == |t.fields| {
      assert defs.Keys + {} == defs.Keys;
    } else if RegistersNested(t, i, tag) {
      AddNestedKeysRegistering(defs, t, i, tag);
    } else {
      AddNestedKeys(defs, t, i + 1, tag);
      assert AddNested(defs, t, i, tag) == AddNested(defs, t, i + 1, tag);
      assert ReachableFrom(t, i, tag) == {} + ReachableFrom(t, i + 1, tag);
    }
  }

  /** The step of AddNestedKeys for a field that registers its record. */
  lemma {:induction false} AddNestedKeysRegistering(defs: map<string, Schema>, t: Type, i: nat, tag: string)
    requires t.Struct? && i < |t.fields| && RegistersNested(t, i, tag)
    ensures AddNested(defs, t, i, tag).Keys == defs.Keys + ReachableFrom(t, i, tag)
    decreases Size(t), 0, |t.fields| - i, 0
  {
    RegisteringUnfolds(defs, t, i, tag);
    var target := FieldTarget(t.fields[i].typ);
    AddDefKeys(defs, target, tag);
    AddNestedKeys(AddDef(defs, target, tag), t, i + 1, tag);
  }

  /** One registering field: its record is registered, then the remaining fields. */
  lemma RegisteringUnfolds(defs: map<string, Schema>, t: Type, i: nat, tag: string)
    requires t.Struct? && i < |t.fields| && RegistersNested(t, i, tag)
    ensures Size(FieldTarget(t.fields[i].typ)) < Size(t)
    ensures AddNested(defs, t, i, tag) == AddNested(AddDef(defs, FieldTarget(t.fields[i].typ), tag), t, i + 1, tag)
    ensures ReachableFrom(t, i, tag) == Reachable(FieldTarget(t.fields[i].typ), tag) + ReachableFrom(t, i + 1, tag)
  {
    FieldSmaller(t, 0, i);
  }

  /**
   * Registering a record only overwrites: the result is the earlier map
   * updated with what the registration writes on an empty map.
   */
  lemma {:induction false} AddDefOverwrites(defs: map<string, Schema>, t: Type, tag: string)
    requires t.Struct?
    ensures AddDef(defs, t, tag) == defs + AddDef(map[], t, tag)
    decreases Size(t), 1
  {
    AddNestedOverwrites(defs, t, 0, tag);
  }

  lemma {:induction false} AddNestedOverwrites(defs: map<string, Schema>, t: Type, i: nat, tag: string)
    requires t.Struct? && i <= |t.fields|
    ensures AddNested(defs, t, i, tag) == defs + AddNested(map[], t, i, tag)
    decreases Size(t), 0, |t.fields| - i, 1
  {
    if i == |t.fields| {
      assert defs + map[] == defs;
    } else if RegistersNested(t, i, tag) {
      AddNestedOverwritesRegistering(defs, t, i, tag);
    } else {
      AddNestedOverwrites(defs, t, i + 1, tag);
    }
  }

  /** The step of AddNestedOverwrites for a field that registers its record. */
  lemma {:induction false} AddNestedOverwritesRegistering(defs: map<string, Schema>, t: Type, i: nat, tag: string)
    requires t.Struct? && i < |t.fields| && RegistersNested(t, i, tag)
    ensures AddNested(defs, t, i, tag) == defs + AddNested(map[], t, i, tag)
    decreases Size(t), 0, |t.fields| - i, 0
  {
    RegisteringUnfolds(defs, t, i, tag);
    RegisteringUnfolds(map[], t, i, tag);
    var target := FieldTarget(t.fields[i].typ);
    var w := AddDef(map[], target, tag);
    var rest := AddNested(map[], t, i + 1, tag);
    AddDefOverwrites(defs, target, tag);
    AddNestedOverwrites(defs + w, t, i + 1, tag);
    AddNestedOverwrites(w, t, i + 1, tag);
    UnionAssociative(defs, w, rest);
  }

  lemma UnionAssociative(a: map<string, Schema>, b: map<string, Schema>, c: map<string, Schema>)
    ensures (a + b) + c == a + (b + c)
  {
  }

  /** The entries for names not reachable from the record are left as they were. */
  lemma AddDefKeepsOthers(defs: map<string, Schema>, t: Type, tag: string, k: string)
    requires t.Struct? && k !in Reachable(t, tag)
    ensures k in AddDef(defs, t, tag) <==> k in defs
    ensures k in defs ==> AddDef(defs, t, tag)[k] == defs[k]
  {
    AddDefOverwrites(defs, t, tag);
    AddDefKeys(map[], t, tag);
  }

  /** Registering the same record twice gives the same map as registering it once. */
  lemma AddDefIdempotent(defs: map<string, Schema>, t: Type, tag: string)
    requires t.Struct?
    ensures AddDef(AddDef(defs, t, tag), t, tag) == AddDef(defs, t, tag)
  {
    var w := AddDef(map[], t, tag);
    AddDefOverwrites(defs, t, tag);
    AddDefOverwrites(defs + w, t, tag);
    assert (defs + w) + w == defs + w;
  }

  /** The record's own entry is its definition, written last, whatever a nested record of the same name wrote. */
  lemma AddDefOwnEntry(defs: map<string, Schema>, t: Type, tag: string)
    requires t.Struct?
    ensures t.name in AddDef(defs, t, tag) && AddDef(defs, t, tag)[t.name] == Definition(t, tag)
  {
  }

  /** A tagged struct-typed field makes its struct reachable, hence registered. */
  lemma {:induction false} NestedReachable(t: Type, from: nat, i: nat, tag: string)
    requires t.Struct? && from <= i < |t.fields| && RegistersNested(t, i, tag)
    ensures FieldTarget(t.fields[i].typ).name in ReachableFrom(t, from, tag)
    decreases i - from
  {
    if from < i {
      NestedReachable(t, from + 1, i, tag);
    }
  }
}
