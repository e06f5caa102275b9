/**
 * The operation builder and the document assembler (swagger/swagger.go,
 * addOperation and WriteTo), as functions: the responses an operation
 * collects from its possible errors, the arguments it is handed by
 * AddParam, the definitions registered on its behalf and the path items
 * it is stored in.
 */
module Operations {
  import opened Wrappers
  import opened Seqs
  import opened Strings
  import opened Types
  import opened OpenApi
  import opened PathRewrite
  import opened Parameters
  import opened Definitions

  /** The service descriptions the generator consumes. */
  datatype PossibleError = PossibleError(code: int, item: string, message: Type)

  /** A route selector: one that exposes an HTTP method and a path, or any other kind. */
  datatype RouteSelector = RestSelector(httpMethod: string, path: string) | OtherSelector

  datatype Contract = Contract(
    name: string, input: Type, output: Type,
    selectors: seq<RouteSelector>, possibleErrors: seq<PossibleError>)

  datatype Service = Service(name: string, contracts: seq<Contract>)

  predicate HasRest(sels: seq<RouteSelector>) {
    exists i :: 0 <= i < |sels| && sels[i].RestSelector?
  }

  /**
   * What addOperation demands of a contract: every error payload is a record,
   * and so are the input and output when some selector exposes a route
   * (their fields are walked only then).
   */
  predicate WellTyped(c: Contract) {
    && (forall i :: 0 <= i < |c.possibleErrors| ==> IsRecord(ValueType(c.possibleErrors[i].message)))
    && (HasRest(c.selectors) ==> IsRecord(ValueType(c.input)) && IsRecord(ValueType(c.output)))
  }

  /** The slot a route's method selects, compared after upper-casing; None for any other method. */
  function MethodOf(httpMethod: string): Option<HttpMethod> {
    var m := ToUpper(httpMethod);
    if m == "GET" then Some(Get)
    else if m == "DELETE" then Some(Delete)
    else if m == "POST" then Some(Post)
    else if m == "PUT" then Some(Put)
    else if m == "PATCH" then Some(Patch)
    else None
  }

  /** Upper-casing twice is upper-casing once. */
  lemma ToUpperIdempotent(s: string)
    ensures ToUpper(ToUpper(s)) == ToUpper(s)
  {
    assert forall i :: 0 <= i < |s| ==> UpperChar(UpperChar(s[i])) == UpperChar(s[i]);
  }

  /** The httpMethod is matched regardless of case. */
  lemma MethodCaseInsensitive(httpMethod: string)
    ensures MethodOf(ToUpper(httpMethod)) == MethodOf(httpMethod)
  {
    ToUpperIdempotent(httpMethod);
  }

  /** The methods whose operations carry the input record as body: POST, PUT and PATCH. */
  predicate TakesBody(httpMethod: string) {
    MethodOf(httpMethod) == Some(Post) || MethodOf(httpMethod) == Some(Put) || MethodOf(httpMethod) == Some(Patch)
  }

  // ---------------------------------------------------------------- errors

  /** The labels of the possible errors with a given status code, in declaration order. */
  function LabelsFor(errs: seq<PossibleError>, code: int): seq<string>
    decreases |errs|
  {
    if errs == [] then []
    else
      var last := errs[|errs| - 1];
      LabelsFor(errs[..|errs| - 1], code) + (if last.code == code then [last.item] else [])
  }

  /** Labels of a concatenation: those of the first part, then those of the second. */
  lemma {:induction false} LabelsForConcat(a: seq<PossibleError>, b: seq<PossibleError>, code: int)
    ensures LabelsFor(a + b, code) == LabelsFor(a, code) + LabelsFor(b, code)
    decreases |b|
  {
    if b != [] {
      var init := b[..|b| - 1];
      assert (a + b)[..|a + b| - 1] == a + init;
      LabelsForConcat(a, init, code);
    } else {
      assert a + b == a;
    }
  }

  /** The response for one possible error: its payload's definition, described by all labels of its code so far. */
  function ErrorResponse(errs: seq<PossibleError>, e: PossibleError): Response {
    Response(Ref(DefRef(TypeName(ValueType(e.message)))), "Items: " + Join(LabelsFor(errs, e.code), ", "))
  }

  /** The responses after the possible errors have been added to base in order, each replacing its code's entry. */
  function ErrorResponses(base: map<int, Response>, errs: seq<PossibleError>): map<int, Response>
    decreases |errs|
  {
    if errs == [] then base
    else
      var last := errs[|errs| - 1];
      ErrorResponses(base, errs[..|errs| - 1])[last.code := ErrorResponse(errs, last)]
  }

  function Codes(errs: seq<PossibleError>): set<int> {
    set i | 0 <= i < |errs| :: errs[i].code
  }

  /** One response per status code: the base codes plus the codes of the possible errors. */
  lemma {:induction false} ErrorResponsesKeys(base: map<int, Response>, errs: seq<PossibleError>)
    ensures ErrorResponses(base, errs).Keys == base.Keys + Codes(errs)
    decreases |errs|
  {
    if errs != [] {
      var init := errs[..|errs| - 1];
      ErrorResponsesKeys(base, init);
      assert Codes(errs) == Codes(init) + {errs[|errs| - 1].code} by {
        forall c | c in Codes(errs) ensures c in Codes(init) + {errs[|errs| - 1].code} {
          var i :| 0 <= i < |errs| && errs[i].code == c;
          if i < |errs| - 1 { assert init[i] == errs[i]; }
        }
        forall c | c in Codes(init) ensures c in Codes(errs) {
          var i :| 0 <= i < |init| && init[i].code == c;
          assert errs[i] == init[i];
        }
      }
    }
  }

  /**
   * The response for a status code of the possible errors refers to the
   * payload of the last error with that code and is described as "Items: "
   * followed by the labels of all errors with that code, joined with ", ",
   * in declaration order.
   */
  lemma {:induction false} ErrorsGroupedByCode(base: map<int, Response>, errs: seq<PossibleError>, i: nat)
    requires i < |errs|
    requires forall j :: i < j < |errs| ==> errs[j].code != errs[i].code
    ensures errs[i].code in ErrorResponses(base, errs)
    ensures ErrorResponses(base, errs)[errs[i].code] ==
      Response(Ref(DefRef(TypeName(ValueType(errs[i].message)))), "Items: " + Join(LabelsFor(errs, errs[i].code), ", "))
    decreases |errs|
  {
    var init := errs[..|errs| - 1];
    var last := errs[|errs| - 1];
    if i < |errs| - 1 {
      var c := errs[i].code;
      assert last.code != c;
      assert init[i] == errs[i];
      forall j | i < j < |init| ensures init[j].code != init[i].code {
        assert init[j] == errs[j];
      }
      ErrorsGroupedByCode(base, init, i);
      assert LabelsFor(errs, c) == LabelsFor(init, c);
    }
  }

  /** A status code no possible error has keeps its base response. */
  lemma {:induction false} ErrorResponsesKeepOthers(base: map<int, Response>, errs: seq<PossibleError>, code: int)
    requires forall j :: 0 <= j < |errs| ==> errs[j].code != code
    ensures code in ErrorResponses(base, errs) <==> code in base
    ensures code in base ==> ErrorResponses(base, errs)[code] == base[code]
    decreases |errs|
  {
    if errs != [] {
      var init := errs[..|errs| - 1];
      forall j | 0 <= j < |init| ensures init[j].code != code {
        assert init[j] == errs[j];
      }
      ErrorResponsesKeepOthers(base, init, code);
    }
  }

  /** The definitions after each error payload has been registered, in order. */
  function ErrorDefinitions(defs: map<string, Schema>, errs: seq<PossibleError>, tag: string): map<string, Schema>
    requires forall i :: 0 <= i < |errs| ==> IsRecord(ValueType(errs[i].message))
    decreases |errs|
  {
    if errs == [] then defs
    else
      var last := errs[|errs| - 1];
      assert IsRecord(ValueType(last.message));
      assert forall i :: 0 <= i < |errs| - 1 ==> errs[..|errs| - 1][i] == errs[i];
      AddDef(ErrorDefinitions(defs, errs[..|errs| - 1], tag), Elem1(ValueType(last.message)), tag)
  }

  /** The names of the error payload records and of every record reachable from them. */
  function ErrorsReachable(errs: seq<PossibleError>, tag: string): set<string>
    requires forall i :: 0 <= i < |errs| ==> IsRecord(ValueType(errs[i].message))
    decreases |errs|
  {
    if errs == [] then {}
    else
      var last := errs[|errs| - 1];
      assert IsRecord(ValueType(last.message));
      assert forall i :: 0 <= i < |errs| - 1 ==> errs[..|errs| - 1][i] == errs[i];
      ErrorsReachable(errs[..|errs| - 1], tag) + Reachable(Elem1(ValueType(last.message)), tag)
  }

  /** Registering the error payloads adds exactly the names reachable from them. */
  lemma {:induction false} ErrorDefinitionsKeys(defs: map<string, Schema>, errs: seq<PossibleError>, tag: string)
    requires forall i :: 0 <= i < |errs| ==> IsRecord(ValueType(errs[i].message))
    ensures ErrorDefinitions(defs, errs, tag).Keys == defs.Keys + ErrorsReachable(errs, tag)
    decreases |errs|
  {
    if errs != [] {
      var init := errs[..|errs| - 1];
      assert forall i :: 0 <= i < |init| ==> init[i] == errs[i];
      ErrorDefinitionsKeys(defs, init, tag);
      AddDefKeys(ErrorDefinitions(defs, init, tag), Elem1(ValueType(errs[|errs| - 1].message)), tag);
    }
  }

  // ------------------------------------------------------------- selectors

  /** The body parameter: named after the input record and referring to its definition. */
  function BodyParam(inType: Type): Parameter {
    Body(TypeName(inType), Ref(DefRef(TypeName(inType))))
  }

  /** The AddParam arguments one route selector contributes: its input parameters, then the body for POST, PUT and PATCH. */
  function SelectorParams(sel: RouteSelector, inType: Type, tag: string): seq<Option<Parameter>>
    requires sel.RestSelector? && IsRecord(inType)
  {
    InputParams(Elem1(inType), 0, tag, PathParams(Split(sel.path, '/')))
    + (if TakesBody(sel.httpMethod) then [Some(BodyParam(inType))] else [])
  }

  /** The AddParam arguments of all selectors, in order; other selectors contribute none. */
  function OperationParams(sels: seq<RouteSelector>, inType: Type, tag: string): seq<Option<Parameter>>
    requires HasRest(sels) ==> IsRecord(inType)
    decreases |sels|
  {
    if sels == [] then []
    else
      var last := sels[|sels| - 1];
      HasRestPrefix(sels);
      OperationParams(sels[..|sels| - 1], inType, tag)
      + (if last.RestSelector? then SelectorParams(last, inType, tag) else [])
  }

  /** The definitions after each route selector has registered the input and then the output record. */
  function SelectorDefinitions(defs: map<string, Schema>, sels: seq<RouteSelector>, inType: Type, outType: Type, tag: string)
    : map<string, Schema>
    requires HasRest(sels) ==> IsRecord(inType) && IsRecord(outType)
    decreases |sels|
  {
    if sels == [] then defs
    else
      var last := sels[|sels| - 1];
      HasRestPrefix(sels);
      var prev := SelectorDefinitions(defs, sels[..|sels| - 1], inType, outType, tag);
      if last.RestSelector? then AddDef(AddDef(prev, Elem1(inType), tag), Elem1(outType), tag) else prev
  }

  /** The path item stored under a key, or an empty one. */
  function ItemAt(paths: map<string, PathItem>, key: string): PathItem {
    if key in paths then paths[key] else EmptyPathItem
  }

  /** Store op for one route: the item at the rewritten path gets op in the httpMethod's slot (none for other methods). */
  function StorePath(paths: map<string, PathItem>, sel: RouteSelector, op: Operation): map<string, PathItem>
    requires sel.RestSelector?
  {
    var key := RewritePath(sel.path);
    var item := ItemAt(paths, key);
    paths[key := match MethodOf(sel.httpMethod) case Some(m) => SetSlot(item, m, op) case None => item]
  }

  /** The path items after op has been stored for every route selector, in order. */
  function StorePaths(paths: map<string, PathItem>, sels: seq<RouteSelector>, op: Operation): map<string, PathItem>
    decreases |sels|
  {
    if sels == [] then paths
    else
      var last := sels[|sels| - 1];
      var prev := StorePaths(paths, sels[..|sels| - 1], op);
      if last.RestSelector? then StorePath(prev, last, op) else prev
  }

  /** The rewritten paths of the route selectors. */
  function RestPaths(sels: seq<RouteSelector>): set<string> {
    set i | 0 <= i < |sels| && sels[i].RestSelector? :: RewritePath(sels[i].path)
  }

  /** Storing an operation adds exactly the rewritten paths of the route selectors. */
  lemma {:induction false} StorePathsKeys(paths: map<string, PathItem>, sels: seq<RouteSelector>, op: Operation)
    ensures StorePaths(paths, sels, op).Keys == paths.Keys + RestPaths(sels)
    decreases |sels|
  {
    if sels != [] {
      var init := sels[..|sels| - 1];
      var last := sels[|sels| - 1];
      StorePathsKeys(paths, init, op);
      assert RestPaths(sels) == RestPaths(init) + (if last.RestSelector? then {RewritePath(last.path)} else {}) by {
        forall k | k in RestPaths(sels)
          ensures k in RestPaths(init) + (if last.RestSelector? then {RewritePath(last.path)} else {})
        {
          var i :| 0 <= i < |sels| && sels[i].RestSelector? && RewritePath(sels[i].path) == k;
          if i < |sels| - 1 { assert init[i] == sels[i]; }
        }
        forall k | k in RestPaths(init) ensures k in RestPaths(sels) {
          var i :| 0 <= i < |init| && init[i].RestSelector? && RewritePath(init[i].path) == k;
          assert sels[i] == init[i];
        }
      }
    }
  }

  /** A route selector with one of the five methods leaves op in that httpMethod's slot of its rewritten path. */
  lemma {:induction false} StorePathsSlot(paths: map<string, PathItem>, sels: seq<RouteSelector>, op: Operation, i: nat)
    requires i < |sels| && sels[i].RestSelector? && MethodOf(sels[i].httpMethod).Some?
    ensures RewritePath(sels[i].path) in StorePaths(paths, sels, op)
    ensures Slot(StorePaths(paths, sels, op)[RewritePath(sels[i].path)], MethodOf(sels[i].httpMethod).value) == Some(op)
    decreases |sels|
  {
    var init := sels[..|sels| - 1];
    if i < |sels| - 1 {
      assert init[i] == sels[i];
      StorePathsSlot(paths, init, op, i);
    }
  }

  /** A slot that no route selector addresses keeps what it held: the other methods of a path are left alone. */
  lemma {:induction false} StorePathsKeepSlot(paths: map<string, PathItem>, sels: seq<RouteSelector>, op: Operation,
                                               key: string, m: HttpMethod)
    requires forall i :: 0 <= i < |sels| && sels[i].RestSelector? && RewritePath(sels[i].path) == key ==>
      MethodOf(sels[i].httpMethod) != Some(m)
    ensures Slot(ItemAt(StorePaths(paths, sels, op), key), m) == Slot(ItemAt(paths, key), m)
    decreases |sels|
  {
    if sels != [] {
      var init := sels[..|sels| - 1];
      forall i | 0 <= i < |init| && init[i].RestSelector? && RewritePath(init[i].path) == key
        ensures MethodOf(init[i].httpMethod) != Some(m)
      {
        assert init[i] == sels[i];
      }
      StorePathsKeepSlot(paths, init, op, key, m);
    }
  }

  /** The route selectors among sels, in order. */
  function RestOnly(sels: seq<RouteSelector>): (r: seq<RouteSelector>)
    ensures forall i :: 0 <= i < |r| ==> r[i].RestSelector?
    ensures HasRest(r) <==> HasRest(sels)
    decreases |sels|
  {
    if sels == [] then []
    else
      var init := sels[..|sels| - 1];
      var last := sels[|sels| - 1];
      var r := RestOnly(init) + (if last.RestSelector? then [last] else []);
      assert HasRest(sels) <==> HasRest(init) || last.RestSelector? by {
        if HasRest(sels) {
          var i :| 0 <= i < |sels| && sels[i].RestSelector?;
          if i < |sels| - 1 { assert init[i] == sels[i]; }
        }
        if HasRest(init) {
          var i :| 0 <= i < |init| && init[i].RestSelector?;
          assert sels[i] == init[i];
        }
      }
      assert HasRest(r) <==> HasRest(RestOnly(init)) || last.RestSelector? by {
        var ri := RestOnly(init);
        if HasRest(r) && !last.RestSelector? { assert r == ri; }
        if HasRest(ri) {
          var i :| 0 <= i < |ri| && ri[i].RestSelector?;
          assert r[i] == ri[i];
        }
        if last.RestSelector? { assert r[|r| - 1] == last; }
      }
      r
  }

  /** A selector occurs among the REST selectors as often as in sels if it is one, else never. */
  lemma {:induction false} RestSelectorCount(sels: seq<RouteSelector>, g: RouteSelector)
    ensures multiset(RestOnly(sels))[g] == if g.RestSelector? then multiset(sels)[g] else 0
    decreases |sels|
  {
    if sels != [] {
      var last := sels[|sels| - 1];
      RestSelectorCount(sels[..|sels| - 1], g);
      MultisetLast(sels);
      if last.RestSelector? {
        MultisetLast(RestOnly(sels));
      }
    }
  }

  /** The REST selectors are exactly those of sels, each as often as it occurs. */
  lemma RestOnlyExact(sels: seq<RouteSelector>)
    ensures forall g :: multiset(RestOnly(sels))[g] == if g.RestSelector? then multiset(sels)[g] else 0
  {
    forall g ensures multiset(RestOnly(sels))[g] == if g.RestSelector? then multiset(sels)[g] else 0 {
      RestSelectorCount(sels, g);
    }
  }

  /** The REST selectors keep the order of sels. */
  lemma {:induction false} RestOnlyInOrder(sels: seq<RouteSelector>)
    ensures SubsequenceOf(RestOnly(sels), sels)
    decreases |sels|
  {
    if sels != [] {
      var init := sels[..|sels| - 1];
      var last := sels[|sels| - 1];
      RestOnlyInOrder(init);
      SubsequenceSnoc(RestOnly(init), init, last);
      assert init + [last] == sels;
      if last.RestSelector? {
        assert RestOnly(sels) == RestOnly(init) + [last];
      } else {
        assert RestOnly(sels) == RestOnly(init);
      }
    }
  }

  /** Selectors that expose no route add no parameters. */
  lemma {:induction false} OtherSelectorsAddNoParams(sels: seq<RouteSelector>, inType: Type, tag: string)
    requires HasRest(sels) ==> IsRecord(inType)
    ensures OperationParams(RestOnly(sels), inType, tag) == OperationParams(sels, inType, tag)
    decreases |sels|
  {
    if sels != [] {
      var init := sels[..|sels| - 1];
      var r := RestOnly(sels);
      HasRestPrefix(sels);
      OtherSelectorsAddNoParams(init, inType, tag);
      if sels[|sels| - 1].RestSelector? {
        assert r[..|r| - 1] == RestOnly(init);
      } else {
        assert r == RestOnly(init);
      }
    }
  }

  /** Selectors that expose no route register no definitions. */
  lemma {:induction false} OtherSelectorsAddNoDefinitions(sels: seq<RouteSelector>, inType: Type, outType: Type, tag: string,
                                                           defs: map<string, Schema>)
    requires HasRest(sels) ==> IsRecord(inType) && IsRecord(outType)
    ensures SelectorDefinitions(defs, RestOnly(sels), inType, outType, tag) == SelectorDefinitions(defs, sels, inType, outType, tag)
    decreases |sels|
  {
    if sels != [] {
      var init := sels[..|sels| - 1];
      var r := RestOnly(sels);
      HasRestPrefix(sels);
      OtherSelectorsAddNoDefinitions(init, inType, outType, tag, defs);
      var last := sels[|sels| - 1];
      var ri := RestOnly(init);
      if last.RestSelector? {
        assert r == ri + [last];
        SelectorDefinitionsSnoc(defs, ri, last, inType, outType, tag);
      } else {
        assert r == ri;
      }
    }
  }

  /** One more route selector registers the input and then the output record; any other selector nothing. */
  lemma SelectorDefinitionsSnoc(defs: map<string, Schema>, sels: seq<RouteSelector>, sel: RouteSelector,
                                inType: Type, outType: Type, tag: string)
    requires HasRest(sels + [sel]) ==> IsRecord(inType) && IsRecord(outType)
    ensures HasRest(sels) ==> HasRest(sels + [sel])
    ensures sel.RestSelector? ==> HasRest(sels + [sel])
    ensures SelectorDefinitions(defs, sels + [sel], inType, outType, tag)
      == var prev := SelectorDefinitions(defs, sels, inType, outType, tag);
         if sel.RestSelector? then AddDef(AddDef(prev, Elem1(inType), tag), Elem1(outType), tag) else prev
  {
    assert (sels + [sel])[..|sels|] == sels && (sels + [sel])[|sels|] == sel;
    HasRestPrefix(sels + [sel]);
  }

  /**
   * The route selectors register exactly the names reachable from the input
   * and the output record, when there is a route at all.
   */
  lemma {:induction false} SelectorDefinitionsKeys(defs: map<string, Schema>, sels: seq<RouteSelector>,
                                                   inType: Type, outType: Type, tag: string)
    requires HasRest(sels) ==> IsRecord(inType) && IsRecord(outType)
    ensures SelectorDefinitions(defs, sels, inType, outType, tag).Keys
      == defs.Keys + if HasRest(sels) then Reachable(Elem1(inType), tag) + Reachable(Elem1(outType), tag) else {}
    decreases |sels|
  {
    if sels != [] {
      var init := sels[..|sels| - 1];
      var last := sels[|sels| - 1];
      HasRestPrefix(sels);
      SelectorDefinitionsKeys(defs, init, inType, outType, tag);
      var prev := SelectorDefinitions(defs, init, inType, outType, tag);
      if last.RestSelector? {
        assert HasRest(sels) by { assert sels[|sels| - 1].RestSelector?; }
        RouteKeys(prev, inType, outType, tag);
      } else if HasRest(sels) {
        var i :| 0 <= i < |sels| && sels[i].RestSelector?;
        assert init[i] == sels[i];
      }
    }
  }

  /** One route registers the names reachable from the input and from the output record. */
  lemma RouteKeys(prev: map<string, Schema>, inType: Type, outType: Type, tag: string)
    requires IsRecord(inType) && IsRecord(outType)
    ensures AddDef(AddDef(prev, Elem1(inType), tag), Elem1(outType), tag).Keys
      == prev.Keys + (Reachable(Elem1(inType), tag) + Reachable(Elem1(outType), tag))
  {
    AddDefKeys(prev, Elem1(inType), tag);
    AddDefKeys(AddDef(prev, Elem1(inType), tag), Elem1(outType), tag);
  }

  /** One more route selector adds its parameters; any other selector none. */
  lemma OperationParamsSnoc(sels: seq<RouteSelector>, sel: RouteSelector, inType: Type, tag: string)
    requires HasRest(sels + [sel]) ==> IsRecord(inType)
    ensures HasRest(sels) ==> HasRest(sels + [sel])
    ensures sel.RestSelector? ==> HasRest(sels + [sel])
    ensures OperationParams(sels + [sel], inType, tag)
      == OperationParams(sels, inType, tag) + if sel.RestSelector? then SelectorParams(sel, inType, tag) else []
  {
    assert (sels + [sel])[..|sels|] == sels && (sels + [sel])[|sels|] == sel;
    HasRestPrefix(sels + [sel]);
  }

  /** One more route selector stores the operation once more; any other selector nothing. */
  lemma StorePathsSnoc(paths: map<string, PathItem>, sels: seq<RouteSelector>, sel: RouteSelector, op: Operation)
    ensures StorePaths(paths, sels + [sel], op)
      == var prev := StorePaths(paths, sels, op); if sel.RestSelector? then StorePath(prev, sel, op) else prev
  {
    assert (sels + [sel])[..|sels|] == sels;
  }

  /** What selector j adds to each of the three folds over a prefix of sels. */
  lemma SelectorStep(defs: map<string, Schema>, paths: map<string, PathItem>, sels: seq<RouteSelector>, j: nat,
                     inType: Type, outType: Type, tag: string, op: Operation)
    requires j < |sels| && (HasRest(sels) ==> IsRecord(inType) && IsRecord(outType))
    ensures HasRest(sels[..j]) ==> IsRecord(inType) && IsRecord(outType)
    ensures HasRest(sels[..j + 1]) ==> IsRecord(inType) && IsRecord(outType)
    ensures sels[j].RestSelector? ==> IsRecord(inType) && IsRecord(outType)
    ensures SelectorDefinitions(defs, sels[..j + 1], inType, outType, tag)
      == var prev := SelectorDefinitions(defs, sels[..j], inType, outType, tag);
         if sels[j].RestSelector? then AddDef(AddDef(prev, Elem1(inType), tag), Elem1(outType), tag) else prev
    ensures OperationParams(sels[..j + 1], inType, tag)
      == OperationParams(sels[..j], inType, tag) + if sels[j].RestSelector? then SelectorParams(sels[j], inType, tag) else []
    ensures StorePaths(paths, sels[..j + 1], op)
      == var prev := StorePaths(paths, sels[..j], op); if sels[j].RestSelector? then StorePath(prev, sels[j], op) else prev
  {
    assert sels[..j + 1] == sels[..j] + [sels[j]];
    if HasRest(sels[..j]) {
      var i :| 0 <= i < j && sels[..j][i].RestSelector?;
      assert sels[i].RestSelector?;
    }
    if HasRest(sels[..j + 1]) {
      var i :| 0 <= i < j + 1 && sels[..j + 1][i].RestSelector?;
      assert sels[i].RestSelector?;
    }
    if sels[j].RestSelector? {
      assert 0 <= j < |sels| && sels[j].RestSelector?;
    }
    SelectorDefinitionsSnoc(defs, sels[..j], sels[j], inType, outType, tag);
    OperationParamsSnoc(sels[..j], sels[j], inType, tag);
    StorePathsSnoc(paths, sels[..j], sels[j], op);
  }

  /** Selectors that expose no route store nothing. */
  lemma {:induction false} OtherSelectorsStoreNothing(sels: seq<RouteSelector>, paths: map<string, PathItem>, op: Operation)
    ensures StorePaths(paths, RestOnly(sels), op) == StorePaths(paths, sels, op)
    decreases |sels|
  {
    if sels != [] {
      var init := sels[..|sels| - 1];
      var r := RestOnly(sels);
      OtherSelectorsStoreNothing(init, paths, op);
      if sels[|sels| - 1].RestSelector? {
        assert r[..|r| - 1] == RestOnly(init);
      } else {
        assert r == RestOnly(init);
      }
    }
  }

  lemma HasRestPrefix(sels: seq<RouteSelector>)
    requires sels != []
    ensures HasRest(sels[..|sels| - 1]) ==> HasRest(sels)
  {
    if HasRest(sels[..|sels| - 1]) {
      var i :| 0 <= i < |sels| - 1 && sels[..|sels| - 1][i].RestSelector?;
      assert sels[i].RestSelector?;
    }
  }

  /** Input parameters are never body parameters. */
  lemma InputParamsSimple(t: Type, tag: string, pathParams: seq<string>, k: nat)
    requires t.Struct? && k < |InputParams(t, 0, tag, pathParams)|
    ensures InputParams(t, 0, tag, pathParams)[k].Some? ==> InputParams(t, 0, tag, pathParams)[k].value.Simple?
  {
    OneParamPerTaggedField(t, 0, tag, pathParams);
  }

  predicate HasBody(ps: seq<Option<Parameter>>) {
    exists k :: 0 <= k < |ps| && ps[k].Some? && ps[k].value.Body?
  }

  /** A route's parameters include a body parameter exactly for POST, PUT and PATCH, and it is the input record's. */
  lemma BodyOnlyForPostPutPatch(sel: RouteSelector, inType: Type, tag: string)
    requires sel.RestSelector? && IsRecord(inType)
    ensures HasBody(SelectorParams(sel, inType, tag)) <==> TakesBody(sel.httpMethod)
    ensures TakesBody(sel.httpMethod) ==>
      SelectorParams(sel, inType, tag)[|SelectorParams(sel, inType, tag)| - 1] == Some(BodyParam(inType))
  {
    var ins := InputParams(Elem1(inType), 0, tag, PathParams(Split(sel.path, '/')));
    var ps := SelectorParams(sel, inType, tag);
    if HasBody(ps) && !TakesBody(sel.httpMethod) {
      var k :| 0 <= k < |ps| && ps[k].Some? && ps[k].value.Body?;
      assert ps == ins;
      InputParamsSimple(Elem1(inType), tag, PathParams(Split(sel.path, '/')), k);
    }
    if TakesBody(sel.httpMethod) {
      assert ps[|ps| - 1] == Some(BodyParam(inType));
    }
  }

  // ------------------------------------------------------------- documents

  /** The definitions registered for one contract: error payloads first, then input and output per route. */
  function ContractDefinitions(defs: map<string, Schema>, c: Contract, tag: string): map<string, Schema>
    requires WellTyped(c)
  {
    SelectorDefinitions(ErrorDefinitions(defs, c.possibleErrors, tag), c.selectors, ValueType(c.input), ValueType(c.output), tag)
  }

  predicate AllWellTyped(services: seq<Service>) {
    forall svc, c :: svc in services && c in svc.contracts ==> WellTyped(c)
  }

  function ContractsDefinitions(defs: map<string, Schema>, cs: seq<Contract>, tag: string): map<string, Schema>
    requires forall c :: c in cs ==> WellTyped(c)
    decreases |cs|
  {
    if cs == [] then defs
    else ContractDefinitions(ContractsDefinitions(defs, cs[..|cs| - 1], tag), cs[|cs| - 1], tag)
  }

  function ServicesDefinitions(defs: map<string, Schema>, services: seq<Service>, tag: string): map<string, Schema>
    requires AllWellTyped(services)
    decreases |services|
  {
    if services == [] then defs
    else
      var last := services[|services| - 1];
      ContractsDefinitions(ServicesDefinitions(defs, services[..|services| - 1], tag), last.contracts, tag)
  }

  /** What contract k adds to the definitions and paths over a prefix of cs. */
  lemma ContractStep(defs: map<string, Schema>, cs: seq<Contract>, k: nat, tag: string)
    requires k < |cs| && forall c :: c in cs ==> WellTyped(c)
    ensures forall c :: c in cs[..k] ==> WellTyped(c)
    ensures forall c :: c in cs[..k + 1] ==> WellTyped(c)
    ensures WellTyped(cs[k])
    ensures ContractsDefinitions(defs, cs[..k + 1], tag)
      == ContractDefinitions(ContractsDefinitions(defs, cs[..k], tag), cs[k], tag)
    ensures ContractsPaths(cs[..k + 1]) == ContractsPaths(cs[..k]) + RestPaths(cs[k].selectors)
  {
    var done := cs[..k + 1];
    assert done[..k] == cs[..k] && done[k] == cs[k];
  }

  /** What service i adds to the definitions, tags and paths over a prefix of services. */
  lemma ServiceStep(defs: map<string, Schema>, services: seq<Service>, i: nat, tag: string)
    requires i < |services| && AllWellTyped(services)
    ensures AllWellTyped(services[..i])
    ensures AllWellTyped(services[..i + 1])
    ensures forall c :: c in services[i].contracts ==> WellTyped(c)
    ensures ServicesDefinitions(defs, services[..i + 1], tag)
      == ContractsDefinitions(ServicesDefinitions(defs, services[..i], tag), services[i].contracts, tag)
    ensures ServiceTags(services[..i + 1]) == ServiceTags(services[..i]) + [Tag(services[i].name, "")]
    ensures ServicesPaths(services[..i + 1]) == ServicesPaths(services[..i]) + ContractsPaths(services[i].contracts)
  {
    var done := services[..i + 1];
    assert done[..i] == services[..i] && done[i] == services[i];
  }

  /** The names one contract registers: those reachable from its error payloads, then from its input and output. */
  function ContractReachable(c: Contract, tag: string): set<string>
    requires WellTyped(c)
  {
    ErrorsReachable(c.possibleErrors, tag)
    + if HasRest(c.selectors) then Reachable(Elem1(ValueType(c.input)), tag) + Reachable(Elem1(ValueType(c.output)), tag) else {}
  }

  function ContractsReachable(cs: seq<Contract>, tag: string): set<string>
    requires forall c :: c in cs ==> WellTyped(c)
    decreases |cs|
  {
    if cs == [] then {}
    else ContractsReachable(cs[..|cs| - 1], tag) + ContractReachable(cs[|cs| - 1], tag)
  }

  function ServicesReachable(services: seq<Service>, tag: string): set<string>
    requires AllWellTyped(services)
    decreases |services|
  {
    if services == [] then {}
    else ServicesReachable(services[..|services| - 1], tag) + ContractsReachable(services[|services| - 1].contracts, tag)
  }

  /** One contract adds exactly the names reachable from its error payloads, input and output. */
  lemma ContractDefinitionsKeys(defs: map<string, Schema>, c: Contract, tag: string)
    requires WellTyped(c)
    ensures ContractDefinitions(defs, c, tag).Keys == defs.Keys + ContractReachable(c, tag)
  {
    ErrorDefinitionsKeys(defs, c.possibleErrors, tag);
    SelectorDefinitionsKeys(ErrorDefinitions(defs, c.possibleErrors, tag), c.selectors, ValueType(c.input), ValueType(c.output), tag);
  }

  lemma {:induction false} ContractsDefinitionsKeys(defs: map<string, Schema>, cs: seq<Contract>, tag: string)
    requires forall c :: c in cs ==> WellTyped(c)
    ensures ContractsDefinitions(defs, cs, tag).Keys == defs.Keys + ContractsReachable(cs, tag)
    decreases |cs|
  {
    if cs != [] {
      var init := cs[..|cs| - 1];
      ContractsDefinitionsKeys(defs, init, tag);
      ContractDefinitionsKeys(ContractsDefinitions(defs, init, tag), cs[|cs| - 1], tag);
    }
  }

  /** The document's definitions are exactly the names reachable from every contract of every service. */
  lemma {:induction false} ServicesDefinitionsKeys(defs: map<string, Schema>, services: seq<Service>, tag: string)
    requires AllWellTyped(services)
    ensures ServicesDefinitions(defs, services, tag).Keys == defs.Keys + ServicesReachable(services, tag)
    decreases |services|
  {
    if services != [] {
      var init := services[..|services| - 1];
      ServicesDefinitionsKeys(defs, init, tag);
      ContractsDefinitionsKeys(ServicesDefinitions(defs, init, tag), services[|services| - 1].contracts, tag);
    }
  }

  /** One tag per service, named after it, in service order. */
  function ServiceTags(services: seq<Service>): (r: seq<Tag>)
    ensures |r| == |services|
    ensures forall i :: 0 <= i < |services| ==> r[i] == Tag(services[i].name, "")
  {
    seq(|services|, i requires 0 <= i < |services| => Tag(services[i].name, ""))
  }

  /** The rewritten paths of every route of every contract of every service. */
  function ContractsPaths(cs: seq<Contract>): set<string>
    decreases |cs|
  {
    if cs == [] then {} else ContractsPaths(cs[..|cs| - 1]) + RestPaths(cs[|cs| - 1].selectors)
  }

  function ServicesPaths(services: seq<Service>): set<string>
    decreases |services|
  {
    if services == [] then {}
    else ServicesPaths(services[..|services| - 1]) + ContractsPaths(services[|services| - 1].contracts)
  }
}
