/**
 * The generator itself (swagger/swagger.go, swaggerGen): the imperative
 * code that fills in the document, each method proved against the
 * functions of the Definitions, Parameters and Operations modules.
 */
module Generator {
  import opened Wrappers
  import opened Strings
  import opened Types
  import opened OpenApi
  import opened PathRewrite
  import opened Parameters
  import opened Definitions
  import opened Operations

  /** addTag: one tag, named after the service and with no description, appended to the document's tags. */
  method AddTag(swag: Swagger, s: Service)
    modifies swag
    ensures swag.tags == old(swag.tags) + [Tag(s.name, "")]
    ensures swag.paths == old(swag.paths) && swag.definitions == old(swag.definitions)
  {
    swag.tags := swag.tags + [Tag(s.name, "")];
  }

  class SwaggerGen {
    const s: Swagger
    var tagName: string

    /** NewSwagger: a fresh document with its info block, schemes and version, and no tag name yet. */
    constructor (title: string, ver: string, desc: string)
      ensures fresh(s)
      ensures s.title == title && s.version == ver && s.description == desc
      ensures s.schemes == ["http", "https"] && s.swagger == "2.0"
      ensures s.tags == [] && s.paths == map[] && s.definitions == map[]
      ensures tagName == ""
    {
      s := new Swagger(title, ver, desc);
      tagName := "";
    }

    /** WithTag: the struct-tag key that supplies exposed field names. */
    method WithTag(tagName: string)
      modifies this
      ensures this.tagName == tagName
    {
      this.tagName := tagName;
    }

    /**
     * WriteTo, without the encoding and the write: one tag per service and
     * one operation per contract, in order.
     */
    method WriteTo(services: seq<Service>)
      requires AllWellTyped(services)
      modifies s
      ensures s.tags == old(s.tags) + ServiceTags(services)
      ensures s.definitions == ServicesDefinitions(old(s.definitions), services, tagName)
      ensures s.paths.Keys == old(s.paths).Keys + ServicesPaths(services)
    {
      var i := 0;
      while i < |services|
        invariant 0 <= i <= |services|
        invariant AllWellTyped(services[..i])
        invariant s.tags == old(s.tags) + ServiceTags(services[..i])
        invariant s.definitions == ServicesDefinitions(old(s.definitions), services[..i], tagName)
        invariant s.paths.Keys == old(s.paths).Keys + ServicesPaths(services[..i])
      {
        var svc := services[i];
        ServiceStep(old(s.definitions), services, i, tagName);
        AddTag(s, svc);
        AddContracts(svc.name, svc.contracts);
        AppendAssoc(old(s.tags), ServiceTags(services[..i]), [Tag(svc.name, "")]);
        UnionAssoc(old(s.paths).Keys, ServicesPaths(services[..i]), ContractsPaths(svc.contracts));
        i := i + 1;
      }
      assert services[..i] == services;
    }

    /** WriteTo's inner loop: one operation per contract of a service, in order. */
    method AddContracts(serviceName: string, cs: seq<Contract>)
      requires forall c :: c in cs ==> WellTyped(c)
      modifies s
      ensures s.definitions == ContractsDefinitions(old(s.definitions), cs, tagName)
      ensures s.paths.Keys == old(s.paths).Keys + ContractsPaths(cs)
      ensures s.tags == old(s.tags)
    {
      var k := 0;
      while k < |cs|
        invariant 0 <= k <= |cs|
        invariant forall c :: c in cs[..k] ==> WellTyped(c)
        invariant s.definitions == ContractsDefinitions(old(s.definitions), cs[..k], tagName)
        invariant s.paths.Keys == old(s.paths).Keys + ContractsPaths(cs[..k])
        invariant s.tags == old(s.tags)
      {
        var c := cs[k];
        ContractStep(old(s.definitions), cs, k, tagName);
        ghost var before := s.paths;
        ghost var op := AddOperation(s, serviceName, c);
        StorePathsKeys(before, c.selectors, op);
        UnionAssoc(old(s.paths).Keys, ContractsPaths(cs[..k]), RestPaths(c.selectors));
        k := k + 1;
      }
      assert cs[..k] == cs;
    }

    /**
     * addOperation: one operation per contract, shared by all of its routes.
     * Its responses are 200 with the output record and one per error code;
     * it collects the parameters of every route; the error payloads and,
     * per route, the input and output records are registered; and for
     * every route it is stored at the rewritten path under the method.
     */
    method AddOperation(swag: Swagger, serviceName: string, c: Contract) returns (ghost op: Operation)
      requires WellTyped(c)
      modifies swag
      ensures fresh(op)
      ensures op.id == c.name && op.tags == [serviceName]
      ensures op.produces == ["application/json"] && op.consumes == ["application/json"]
      ensures op.responses ==
        ErrorResponses(map[200 := Response(Ref(DefRef(TypeName(ValueType(c.output)))), "")], c.possibleErrors)
      ensures op.params == OperationParams(c.selectors, ValueType(c.input), tagName)
      ensures swag.definitions == ContractDefinitions(old(swag.definitions), c, tagName)
      ensures swag.paths == StorePaths(old(swag.paths), c.selectors, op)
      ensures swag.tags == old(swag.tags)
    {
      var inType := ValueType(c.input);
      var outType := ValueType(c.output);
      var o := new Operation(c.name, [serviceName], ["application/json"], ["application/json"]);
      o.RespondsWith(200, Response(Ref(DefRef(TypeName(outType))), ""));
      AddErrors(swag, o, c.possibleErrors);
      AddRoutes(swag, o, c.selectors, inType, outType);
      op := o;
    }

    /**
     * addOperation's first loop: every possible error registers its
     * payload's definition and sets the response of its status code,
     * described by the labels of all errors with that code so far.
     */
    method AddErrors(swag: Swagger, o: Operation, errs: seq<PossibleError>)
      requires forall i :: 0 <= i < |errs| ==> IsRecord(ValueType(errs[i].message))
      modifies swag, o
      ensures o.responses == ErrorResponses(old(o.responses), errs)
      ensures o.params == old(o.params)
      ensures swag.definitions == ErrorDefinitions(old(swag.definitions), errs, tagName)
      ensures swag.paths == old(swag.paths) && swag.tags == old(swag.tags)
    {
      var possibleErrors: map<int, seq<string>> := map[];
      var i := 0;
      while i < |errs|
        invariant 0 <= i <= |errs|
        invariant forall code :: Labels(possibleErrors, code) == LabelsFor(errs[..i], code)
        invariant o.responses == ErrorResponses(old(o.responses), errs[..i])
        invariant o.params == old(o.params)
        invariant swag.definitions == ErrorDefinitions(old(swag.definitions), errs[..i], tagName)
        invariant swag.paths == old(swag.paths) && swag.tags == old(swag.tags)
      {
        var pe := errs[i];
        ghost var done := errs[..i + 1];
        assert done[..i] == errs[..i] && done[i] == pe;
        var errType := ValueType(pe.message);
        AddDefinition(swag, errType);
        possibleErrors := possibleErrors[pe.code := Labels(possibleErrors, pe.code) + [pe.item]];
        assert forall code :: Labels(possibleErrors, code) == LabelsFor(done, code);
        o.RespondsWith(pe.code, Response(Ref(DefRef(TypeName(errType))), "Items: " + Join(possibleErrors[pe.code], ", ")));
        assert o.responses == ErrorResponses(old(o.responses), errs[..i])[pe.code := ErrorResponse(done, pe)];
        i := i + 1;
      }
      assert errs[..i] == errs;
    }

    /**
     * addOperation's second loop: every route selector is handled by
     * AddRoute; any other selector is skipped.
     */
    method AddRoutes(swag: Swagger, o: Operation, sels: seq<RouteSelector>, inType: Type, outType: Type)
      requires HasRest(sels) ==> IsRecord(inType) && IsRecord(outType)
      modifies swag, o
      ensures o.responses == old(o.responses)
      ensures o.params == old(o.params) + OperationParams(sels, inType, tagName)
      ensures swag.definitions == SelectorDefinitions(old(swag.definitions), sels, inType, outType, tagName)
      ensures swag.paths == StorePaths(old(swag.paths), sels, o)
      ensures swag.tags == old(swag.tags)
    {
      var j := 0;
      while j < |sels|
        invariant 0 <= j <= |sels|
        invariant HasRest(sels[..j]) ==> IsRecord(inType) && IsRecord(outType)
        invariant o.responses == old(o.responses)
        invariant o.params == old(o.params) + OperationParams(sels[..j], inType, tagName)
        invariant swag.definitions == SelectorDefinitions(old(swag.definitions), sels[..j], inType, outType, tagName)
        invariant swag.paths == StorePaths(old(swag.paths), sels[..j], o)
        invariant swag.tags == old(swag.tags)
      {
        SelectorStep(old(swag.definitions), old(swag.paths), sels, j, inType, outType, tagName, o);
        AppendAssoc(old(o.params), OperationParams(sels[..j], inType, tagName),
          if sels[j].RestSelector? then SelectorParams(sels[j], inType, tagName) else []);
        AddSelector(swag, o, sels[j], inType, outType);
        j := j + 1;
      }
      assert sels[..j] == sels;
    }

    /** One selector of the loop in addOperation: a route selector is added, any other skipped. */
    method AddSelector(swag: Swagger, o: Operation, sel: RouteSelector, inType: Type, outType: Type)
      requires sel.RestSelector? ==> IsRecord(inType) && IsRecord(outType)
      modifies swag, o
      ensures o.params == old(o.params) + if sel.RestSelector? then SelectorParams(sel, inType, tagName) else []
      ensures o.responses == old(o.responses)
      ensures swag.definitions == if sel.RestSelector?
        then AddDef(AddDef(old(swag.definitions), Elem1(inType), tagName), Elem1(outType), tagName)
        else old(swag.definitions)
      ensures swag.paths == if sel.RestSelector? then StorePath(old(swag.paths), sel, o) else old(swag.paths)
      ensures swag.tags == old(swag.tags)
    {
      if sel.RestSelector? {
        AddRoute(swag, o, sel, inType, outType);
      } else {
        assert o.params == old(o.params) + [];
      }
    }

    /**
     * One route selector of addOperation: the route's input parameters, the
     * input and output records' definitions, the body parameter for POST,
     * PUT and PATCH, and the operation stored at the rewritten path in the
     * slot of the upper-cased method (an item without it for other methods).
     */
    method AddRoute(swag: Swagger, o: Operation, sel: RouteSelector, inType: Type, outType: Type)
      requires sel.RestSelector? && IsRecord(inType) && IsRecord(outType)
      modifies swag, o
      ensures o.params == old(o.params) + SelectorParams(sel, inType, tagName)
      ensures o.responses == old(o.responses)
      ensures swag.definitions == AddDef(AddDef(old(swag.definitions), Elem1(inType), tagName), Elem1(outType), tagName)
      ensures swag.paths == StorePath(old(swag.paths), sel, o)
      ensures swag.tags == old(swag.tags)
    {
      SetInput(o, sel.path, inType);
      AddDefinition(swag, inType);
      ghost var defs1 := swag.definitions;
      AddDefinition(swag, outType);
      assert swag.definitions == AddDef(defs1, Elem1(outType), tagName);

      var restPath := ReplacePath(sel.path);
      var pathItem := if restPath in swag.paths then swag.paths[restPath] else EmptyPathItem;
      assert restPath == RewritePath(sel.path) && pathItem == ItemAt(old(swag.paths), restPath);
      pathItem := PlaceOperation(o, pathItem, sel.httpMethod, inType);
      AppendAssoc(old(o.params), InputParams(Elem1(inType), 0, tagName, PathParams(Split(sel.path, '/'))),
        if TakesBody(sel.httpMethod) then [Some(BodyParam(inType))] else []);
      swag.paths := swag.paths[restPath := pathItem];
    }

    /**
     * addOperation's method switch for one route: the operation goes into
     * the slot of the upper-cased method, and POST, PUT and PATCH first
     * give it the input record as body parameter.
     */
    method PlaceOperation(o: Operation, pathItem: PathItem, httpMethod: string, inType: Type) returns (item: PathItem)
      modifies o
      ensures item == match MethodOf(httpMethod) case Some(hm) => SetSlot(pathItem, hm, o) case None => pathItem
      ensures o.params == old(o.params) + if TakesBody(httpMethod) then [Some(BodyParam(inType))] else []
      ensures o.responses == old(o.responses)
    {
      item := pathItem;
      var m := ToUpper(httpMethod);
      if m == "GET" {
        item := item.(get := Some(o));
      } else if m == "DELETE" {
        item := item.(delete := Some(o));
      } else if m == "POST" {
        o.AddParam(Some(Body(TypeName(inType), Ref(DefRef(TypeName(inType))))));
        item := item.(post := Some(o));
      } else if m == "PUT" {
        o.AddParam(Some(Body(TypeName(inType), Ref(DefRef(TypeName(inType))))));
        item := item.(put := Some(o));
      } else if m == "PATCH" {
        o.AddParam(Some(Body(TypeName(inType), Ref(DefRef(TypeName(inType))))));
        item := item.(patch := Some(o));
      }
    }

    /**
     * setInput: hands the operation one parameter per tagged field of the
     * input record, in field order; see Parameters.InputParams.
     */
    method SetInput(op: Operation, path: string, inType: Type)
      requires IsRecord(inType)
      modifies op
      ensures op.params == old(op.params) + InputParams(Elem1(inType), 0, tagName, PathParams(Split(path, '/')))
      ensures op.responses == old(op.responses)
    {
      var t := inType;
      if t.Ptr? {
        t := t.elem;
      }

      var pathParams := CollectPathParams(path);

      var i := 0;
      while i < |t.fields|
        invariant 0 <= i <= |t.fields|
        invariant op.params + InputParams(t, i, tagName, pathParams) == old(op.params) + InputParams(t, 0, tagName, pathParams)
        invariant op.responses == old(op.responses)
      {
        ghost var params0 := op.params;
        AddInputParam(op, t.fields[i], pathParams);
        AppendAssoc(params0, FieldParam(t.fields[i], tagName, pathParams), InputParams(t, i + 1, tagName, pathParams));
        i := i + 1;
      }
    }

    /** One field of setInput's loop: a tagged field adds its parameter, an untagged one nothing. */
    method AddInputParam(op: Operation, f: Field, pathParams: seq<string>)
      modifies op
      ensures op.params == old(op.params) + FieldParam(f, tagName, pathParams)
      ensures op.responses == old(op.responses)
    {
      var fName := TagGet(f.tags, tagName);
      if fName != "" {
        var found := Contains(pathParams, fName);
        if found {
          op.AddParam(SetParameter(Simple(fName, InPath, true, false, "", ""), f.typ));
        } else {
          op.AddParam(SetParameter(Simple(fName, InQuery, true, false, "", ""), f.typ));
        }
      } else {
        assert op.params == old(op.params) + [];
      }
    }

    /**
     * addDefinition: builds the record's definition field by field,
     * registering every nested record on the way, and stores it under the
     * record's name; see Definitions.AddDef.
     */
    method AddDefinition(swag: Swagger, rType: Type)
      requires IsRecord(rType)
      modifies swag
      ensures swag.definitions == AddDef(old(swag.definitions), Elem1(rType), tagName)
      ensures swag.paths == old(swag.paths) && swag.tags == old(swag.tags)
      decreases Size(rType), 1
    {
      var t := rType;
      if t.Ptr? {
        t := t.elem;
      }

      var def: map<string, Schema> := map[];
      var i := 0;
      while i < |t.fields|
        invariant 0 <= i <= |t.fields|
        invariant Properties(t, i, tagName, def) == Properties(t, 0, tagName, map[])
        invariant AddNested(swag.definitions, t, i, tagName) == AddNested(old(swag.definitions), t, 0, tagName)
        invariant swag.paths == old(swag.paths) && swag.tags == old(swag.tags)
      {
        ghost var (def0, defs0) := (def, swag.definitions);
        FieldSmaller(t, 0, i);
        def := AddField(swag, t, i, def);
        assert Properties(t, i, tagName, def0) == Properties(t, i + 1, tagName, def);
        assert AddNested(defs0, t, i, tagName) == AddNested(swag.definitions, t, i + 1, tagName);
        i := i + 1;
      }
      swag.definitions := swag.definitions[t.name := Object(def)];
    }

    /**
     * One iteration of addDefinition's field loop: a tagged field sets the
     * property its name exposes, and a field whose target is a record
     * registers that record first.
     */
    method AddField(swag: Swagger, t: Type, i: nat, def: map<string, Schema>) returns (def': map<string, Schema>)
      requires t.Struct? && i < |t.fields|
      modifies swag
      ensures def' == SetField(def, t.fields[i], tagName)
      ensures swag.definitions ==
        if RegistersNested(t, i, tagName) then AddDef(old(swag.definitions), FieldTarget(t.fields[i].typ), tagName)
        else old(swag.definitions)
      ensures swag.paths == old(swag.paths) && swag.tags == old(swag.tags)
      decreases Size(t.fields[i].typ), 3
    {
      def' := def;
      var f := t.fields[i];
      var fType := f.typ;
      var fName := TagGet(f.tags, tagName);
      if fName == "" {
        return;
      }
      // the modifiers after a comma (omitempty, ...) are dropped
      var fNameParts := Split(fName, ',');
      if |fNameParts| > 1 {
        fName := TrimSpace(fNameParts[0]);
      }
      assert fName == PropertyName(TagGet(f.tags, tagName)) by {
        SplitSeveral(TagGet(f.tags, tagName), ',');
      }

      var wrap: Wrap;
      if fType.Ptr? {
        fType := fType.elem;
        wrap := Identity;
      } else if fType.Slice? {
        wrap := ArrayOf;
        fType := fType.elem;
      } else {
        wrap := Identity;
      }
      assert wrap == WrapOf(f.typ) && Deref(fType) == FieldTarget(f.typ);

      // the source re-enters its kind switch for every further pointer level
      while fType.Ptr?
        invariant Deref(fType) == FieldTarget(f.typ)
        decreases fType
      {
        fType := fType.elem;
      }

      var prop := SchemaFor(swag, fType);
      assert prop == Dispatch(FieldTarget(f.typ));
      assert ApplyWrap(wrap, prop) == FieldSchema(f.typ);
      def' := def[fName := ApplyWrap(wrap, prop)];
    }

    /**
     * addDefinition's kind switch for a field's type once the wrapper and
     * every pointer level are removed; a record is registered as well.
     */
    method SchemaFor(swag: Swagger, fType: Type) returns (prop: Schema)
      requires !fType.Ptr?
      modifies swag
      ensures prop == Dispatch(fType)
      ensures swag.definitions == if fType.Struct? then AddDef(old(swag.definitions), fType, tagName) else old(swag.definitions)
      ensures swag.paths == old(swag.paths) && swag.tags == old(swag.tags)
      decreases Size(fType), 2
    {
      match fType {
        case String => prop := Prop(StringProp);
        case Int8 | Uint8 => prop := Array(Prop(Int8Prop));
        case Int32 | Uint32 => prop := Prop(Int32Prop);
        case Int | Uint | Int64 | Uint64 => prop := Prop(Int64Prop);
        case Float32 => prop := Prop(Float32Prop);
        case Float64 => prop := Prop(Float64Prop);
        case Struct(name, _) =>
          prop := Ref(DefRef(name));
          AddDefinition(swag, fType);
        case Bool => prop := Prop(BoolProp);
        case Interface => prop := Object(map[]);
        case _ => prop := Prop(StringProp);
      }
    }
  }

  /** setInput's first loop: the names of the path's `:name` segments, in order. */
  method CollectPathParams(path: string) returns (pathParams: seq<string>)
    ensures pathParams == PathParams(Split(path, '/'))
  {
    var segs := Split(path, '/');
    pathParams := [];
    var k := 0;
    while k < |segs|
      invariant 0 <= k <= |segs|
      invariant pathParams == PathParams(segs[..k])
    {
      assert segs[..k + 1][..k] == segs[..k];
      if HasPrefix(segs[k], ":") {
        pathParams := pathParams + [segs[k][1..]];
      }
      k := k + 1;
    }
    assert segs[..k] == segs;
  }

  /** setInput's search of the path parameters for a field name. */
  method Contains(pathParams: seq<string>, fName: string) returns (found: bool)
    ensures found <==> fName in pathParams
  {
    found := false;
    var j := 0;
    while j < |pathParams|
      invariant 0 <= j <= |pathParams|
      invariant found <==> fName in pathParams[..j]
    {
      assert pathParams[..j + 1] == pathParams[..j] + [pathParams[j]];
      if fName == pathParams[j] {
        found := true;
      }
      j := j + 1;
    }
    assert pathParams[..j] == pathParams;
  }

  lemma AppendAssoc<T>(a: seq<T>, b: seq<T>, c: seq<T>)
    ensures (a + b) + c == a + (b + c)
  {
  }

  lemma UnionAssoc<T>(a: set<T>, b: set<T>, c: set<T>)
    ensures (a + b) + c == a + (b + c)
  {
  }

  /** possibleErrors[code] for a Go map: the labels recorded so far, or none. */
  function Labels(possibleErrors: map<int, seq<string>>, code: int): seq<string> {
    if code in possibleErrors then possibleErrors[code] else []
  }
}
