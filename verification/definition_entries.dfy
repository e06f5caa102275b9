/**
 * The values the definition builder (swagger/swagger.go, addDefinition)
 * leaves in the definitions map: every record reachable from a registered
 * one is defined by its own fields, unless records of the same name
 * disagree.
 */
module DefinitionEntries {
  import opened Types
  import opened OpenApi
  import opened Definitions

  /** The struct t and every struct reachable from it through tagged fields. */
  function ReachableTypes(t: Type, tag: string): set<Type>
    requires t.Struct?
    decreases Size(t), 1
  {
    {t} + ReachableTypesFrom(t, 0, tag)
  }

  function ReachableTypesFrom(t: Type, i: nat, tag: string): set<Type>
    requires t.Struct? && i <= |t.fields|
    decreases Size(t), 0, |t.fields| - i
  {
    if i == |t.fields| then {}
    else
      (if RegistersNested(t, i, tag) then
         FieldSmaller(t, 0, i);
         ReachableTypes(FieldTarget(t.fields[i].typ), tag)
       else {})
      + ReachableTypesFrom(t, i + 1, tag)
  }

  /** Every struct among types named k is defined as v. */
  predicate AgreeOn(types: set<Type>, tag: string, k: string, v: Schema) {
    forall u :: u in types && u.Struct? && u.name == k ==> Definition(u, tag) == v
  }

  /**
   * The entry of a reachable record is its definition, provided every
   * reachable record of the same name has the same definition (a name
   * that several different records share gets the last one written).
   */
  lemma {:induction false} AddDefEntry(defs: map<string, Schema>, t: Type, tag: string, s: Type)
    requires t.Struct? && s.Struct? && s in ReachableTypes(t, tag)
    requires AgreeOn(ReachableTypes(t, tag), tag, s.name, Definition(s, tag))
    ensures s.name in AddDef(defs, t, tag) && AddDef(defs, t, tag)[s.name] == Definition(s, tag)
    decreases Size(t), 1
  {
    if s.name != t.name {
      AddNestedEntry(defs, t, 0, tag, s);
    }
  }

  lemma {:induction false} AddNestedEntry(defs: map<string, Schema>, t: Type, i: nat, tag: string, s: Type)
    requires t.Struct? && i <= |t.fields| && s.Struct? && s in ReachableTypesFrom(t, i, tag)
    requires AgreeOn(ReachableTypesFrom(t, i, tag), tag, s.name, Definition(s, tag))
    ensures s.name in AddNested(defs, t, i, tag) && AddNested(defs, t, i, tag)[s.name] == Definition(s, tag)
    decreases Size(t), 0, |t.fields| - i, 1
  {
    if RegistersNested(t, i, tag) {
      AddNestedEntryRegistering(defs, t, i, tag, s);
    } else {
      assert AddNested(defs, t, i, tag) == AddNested(defs, t, i + 1, tag);
      assert ReachableTypesFrom(t, i, tag) == ReachableTypesFrom(t, i + 1, tag);
      AddNestedEntry(defs, t, i + 1, tag, s);
    }
  }

  /** The step of AddNestedEntry for a field that registers its record. */
  lemma {:induction false} AddNestedEntryRegistering(defs: map<string, Schema>, t: Type, i: nat, tag: string, s: Type)
    requires t.Struct? && i < |t.fields| && RegistersNested(t, i, tag)
    requires s.Struct? && s in ReachableTypesFrom(t, i, tag)
    requires AgreeOn(ReachableTypesFrom(t, i, tag), tag, s.name, Definition(s, tag))
    ensures s.name in AddNested(defs, t, i, tag) && AddNested(defs, t, i, tag)[s.name] == Definition(s, tag)
    decreases Size(t), 0, |t.fields| - i, 0
  {
    RegisteringUnfolds(defs, t, i, tag);
    RegisteringReaches(t, i, tag);
    var target := FieldTarget(t.fields[i].typ);
    if s in ReachableTypes(target, tag) {
      AddDefEntry(defs, target, tag, s);
      AddNestedKeeps(AddDef(defs, target, tag), t, i + 1, tag, s.name, Definition(s, tag));
    } else {
      AddNestedEntry(AddDef(defs, target, tag), t, i + 1, tag, s);
    }
  }

  /** An entry that every record registered along the way agrees with is kept. */
  lemma {:induction false} AddDefKeeps(defs: map<string, Schema>, t: Type, tag: string, k: string, v: Schema)
    requires t.Struct? && AgreeOn(ReachableTypes(t, tag), tag, k, v)
    requires k in defs && defs[k] == v
    ensures k in AddDef(defs, t, tag) && AddDef(defs, t, tag)[k] == v
    decreases Size(t), 1
  {
    AddNestedKeeps(defs, t, 0, tag, k, v);
  }

  lemma {:induction false} AddNestedKeeps(defs: map<string, Schema>, t: Type, i: nat, tag: string, k: string, v: Schema)
    requires t.Struct? && i <= |t.fields| && AgreeOn(ReachableTypesFrom(t, i, tag), tag, k, v)
    requires k in defs && defs[k] == v
    ensures k in AddNested(defs, t, i, tag) && AddNested(defs, t, i, tag)[k] == v
    decreases Size(t), 0, |t.fields| - i, 1
  {
    if i == |t.fields| {
    } else if RegistersNested(t, i, tag) {
      AddNestedKeepsRegistering(defs, t, i, tag, k, v);
    } else {
      assert AddNested(defs, t, i, tag) == AddNested(defs, t, i + 1, tag);
      assert ReachableTypesFrom(t, i, tag) == ReachableTypesFrom(t, i + 1, tag);
      AddNestedKeeps(defs, t, i + 1, tag, k, v);
    }
  }

  /** The step of AddNestedKeeps for a field that registers its record. */
  lemma {:induction false} AddNestedKeepsRegistering(defs: map<string, Schema>, t: Type, i: nat, tag: string, k: string, v: Schema)
    requires t.Struct? && i < |t.fields| && RegistersNested(t, i, tag)
    requires AgreeOn(ReachableTypesFrom(t, i, tag), tag, k, v)
    requires k in defs && defs[k] == v
    ensures k in AddNested(defs, t, i, tag) && AddNested(defs, t, i, tag)[k] == v
    decreases Size(t), 0, |t.fields| - i, 0
  {
    RegisteringUnfolds(defs, t, i, tag);
    RegisteringReaches(t, i, tag);
    var target := FieldTarget(t.fields[i].typ);
    AddDefKeeps(defs, target, tag, k, v);
    AddNestedKeeps(AddDef(defs, target, tag), t, i + 1, tag, k, v);
  }

  /** One registering field: its record and what it reaches, then what the remaining fields reach. */
  lemma RegisteringReaches(t: Type, i: nat, tag: string)
    requires t.Struct? && i < |t.fields| && RegistersNested(t, i, tag)
    ensures ReachableTypesFrom(t, i, tag) == ReachableTypes(FieldTarget(t.fields[i].typ), tag) + ReachableTypesFrom(t, i + 1, tag)
  {
  }
}
