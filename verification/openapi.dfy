/**
 * The pieces of the OpenAPI 2.0 object model that the generator builds.
 * Schemas, parameters, responses, tags and path items are values; an
 * operation is an object, because one operation is shared by every path
 * item a contract is stored under and is still being extended after it is
 * stored; the document is the object the generator fills in.
 */
module OpenApi {
  import opened Wrappers

  /** The primitive property schemas the generator emits (string, int8, int32, int64, float, double, boolean). */
  datatype Primitive = StringProp | Int8Prop | Int32Prop | Int64Prop | Float32Prop | Float64Prop | BoolProp

  datatype Schema =
    | Prop(prim: Primitive)
    | Ref(target: string)                   // {"$ref": target}
    | Array(items: Schema)                  // {"type": "array", "items": ...}
    | Object(properties: map<string, Schema>)  // {"type": "object", "properties": ...}

  /** The `$ref` target of a named definition: "#/definitions/<name>". */
  function DefRef(name: string): (r: string)
    ensures |r| == |"#/definitions/"| + |name| && r[|"#/definitions/"|..] == name
  {
    "#/definitions/" + name
  }

  datatype Location = InPath | InQuery

  datatype Parameter =
    | Simple(name: string, location: Location, required: bool, allowEmptyValue: bool, typ: string, format: string)
    | Body(name: string, schema: Schema)

  datatype Response = Response(schema: Schema, description: string)

  datatype Tag = Tag(name: string, description: string)

  /** The five method slots of a path item. */
  datatype PathItem = PathItem(
    get: Option<Operation>, put: Option<Operation>, post: Option<Operation>,
    delete: Option<Operation>, patch: Option<Operation>)

  const EmptyPathItem := PathItem(None, None, None, None, None)

  datatype HttpMethod = Get | Put | Post | Delete | Patch

  /** The slot of a path item that holds the operation for a method. */
  function Slot(item: PathItem, m: HttpMethod): Option<Operation> {
    match m
    case Get => item.get
    case Put => item.put
    case Post => item.post
    case Delete => item.delete
    case Patch => item.patch
  }

  /** Fill one slot of a path item, leaving the other four alone. */
  function SetSlot(item: PathItem, m: HttpMethod, op: Operation): (r: PathItem)
    ensures Slot(r, m) == Some(op)
    ensures forall m' :: m' != m ==> Slot(r, m') == Slot(item, m')
  {
    match m
    case Get => item.(get := Some(op))
    case Put => item.(put := Some(op))
    case Post => item.(post := Some(op))
    case Delete => item.(delete := Some(op))
    case Patch => item.(patch := Some(op))
  }

  /**
   * An operation. `params` is the sequence of arguments handed to the
   * library's AddParam, in call order, None standing for a nil parameter;
   * how the library folds them into the operation's parameter list is not
   * part of this model.
   */
  class Operation {
    const id: string
    const tags: seq<string>
    const produces: seq<string>
    const consumes: seq<string>
    var responses: map<int, Response>
    var params: seq<Option<Parameter>>

    constructor (id: string, tags: seq<string>, produces: seq<string>, consumes: seq<string>)
      ensures this.id == id && this.tags == tags && this.produces == produces && this.consumes == consumes
      ensures responses == map[] && params == []
    {
      this.id := id;
      this.tags := tags;
      this.produces := produces;
      this.consumes := consumes;
      responses := map[];
      params := [];
    }

    /** RespondsWith: the response stored under a status code replaces any earlier one. */
    method RespondsWith(code: int, r: Response)
      modifies this
      ensures responses == old(responses)[code := r]
      ensures params == old(params)
    {
      responses := responses[code := r];
    }

    /** AddParam: record the argument. */
    method AddParam(p: Option<Parameter>)
      modifies this
      ensures params == old(params) + [p]
      ensures responses == old(responses)
    {
      params := params + [p];
    }
  }

  /** The document under construction. */
  class Swagger {
    const title: string
    const version: string
    const description: string
    const schemes: seq<string>
    const swagger: string
    var tags: seq<Tag>
    var paths: map<string, PathItem>
    var definitions: map<string, Schema>

    constructor (title: string, version: string, description: string)
      ensures this.title == title && this.version == version && this.description == description
      ensures schemes == ["http", "https"] && swagger == "2.0"
      ensures tags == [] && paths == map[] && definitions == map[]
    {
      this.title := title;
      this.version := version;
      this.description := description;
      schemes := ["http", "https"];
      swagger := "2.0";
      tags := [];
      paths := map[];
      definitions := map[];
    }
  }
}
