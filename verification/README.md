# OpenAPI 2.0 generator for service descriptions

This project models ronycontrib's `swagger` package (`swagger/swagger.go`).
The package turns service descriptions into an OpenAPI 2.0 ("Swagger")
document:

- one tag per service;
- one operation per contract, stored under every route that the contract's REST selectors expose;
- a schema definition for every record the operations use as input, output or error payload, and for every record reachable from one of those through its tagged fields.

The model is written in Dafny and follows the shape of the Go code:

- `Types`: Go reflection is replaced by an explicit, inductive type descriptor (`Type`, `Field`). A field carries its struct tag as a key/value map. Recursion over a descriptor terminates by its size.
- `OpenApi`: the parts of the OpenAPI document the generator writes. The document (`Swagger`) and the operation (`Operation`) are classes. Several path items share one operation and the generator keeps adding to it.
- `PathRewrite`: `replacePath`. A loop (`ReplacePath`) proved equal to a function (`RewritePath`), with the properties of that function as lemmas.
- `Parameters`: `setParameter` and the parameter list `setInput` builds.
- `Definitions`: what `addDefinition` computes, as functions. This covers:
  - the property name of a tag;
  - the wrapper and kind dispatch of a field;
  - the definition of a record;
  - the definitions map after a record and everything it reaches have been registered (`AddDef`).
- `DefinitionEntries`: the value `AddDef` stores under each record name it registers, and the entries it leaves alone.
- `Seqs`: order-preserving selection (`SubsequenceOf`) and multiset helpers. The filters (`TaggedFields`, `RestOnly`) are stated with them.
- `Operations`: what `addOperation` and `WriteTo` compute, as functions. This covers:
  - responses grouped by status code;
  - the `AddParam` arguments;
  - the definitions registered;
  - the path items written.
- `Generator`: the generator itself (`swaggerGen`). Its methods are imperative, with loops and in-place updates of the document. Each one is proved equal to the functions above.
- `Fixture`: the request type and route of `swagger/swagger_test.go`, and what the generator makes of them.

## Model

| member | source | states |
|---|---|---|
| PathRewrite.ReplacePath | swagger/swagger.go:325-341 | The builder loop returns exactly `RewritePath(path)`: the `/`-separated segments, each rewritten, joined again by `/`. |
| PathRewrite.RewriteSegment | swagger/swagger.go:331-337 | A segment starting with `:` becomes `{` + rest + `}`. Any other segment is unchanged. No `/` is introduced, and the result is empty exactly when the segment is. |
| PathRewrite.SegmentsRewritten | swagger/swagger.go:325-341 | Splitting the rewritten path at `/` gives the rewritten segments of the original path, in the same order. |
| PathRewrite.SeparatorsKept | swagger/swagger.go:327-330 | The rewritten path has as many `/` as the original. |
| PathRewrite.LeadingSlashKept | swagger/swagger.go:327-330 | The rewritten path starts with `/` exactly when the original does. |
| PathRewrite.NoParametersUnchanged | swagger/swagger.go:325-341 | A path with no `:` segment is returned unchanged. |
| Parameters.SetParameter | swagger/swagger.go:290-323 | For a string, number or integer kind (a slice: its element kind), the result keeps the parameter and sets its type and format. The type is "string", "number" or "integer". The format is the integer width ("int8", "int32", "int64") or else the field's own kind name ("slice" for a slice). For any other kind, the result is nil (None). |
| Parameters.ParamFor | swagger/swagger.go:180-198 | The parameter for a tagged field is named by the tag, required, and rejects empty values. It is in the path exactly when the name is one of the path parameters, and in the query otherwise. It is nil exactly when setParameter has no row for the kind. |
| Parameters.PathParamsExact | swagger/swagger.go:159-166 | A name is collected as a path parameter exactly when `:name` is a segment of the route. |
| Parameters.OneParamPerTaggedField | swagger/swagger.go:168-199 | Exactly one AddParam argument per tagged field, in field order, each built from that field's tag and type. Untagged fields give none. |
| Parameters.TaggedFields | swagger/swagger.go:168-172 | Every field setInput keeps has a non-empty tag. |
| Parameters.TaggedFieldsExact | swagger/swagger.go:168-172 | setInput keeps exactly the fields with a non-empty tag, each as often as it occurs, and no other field. |
| Parameters.TaggedFieldsInOrder | swagger/swagger.go:168-172 | The fields setInput keeps appear in field order, as a subsequence of the fields. |
| Parameters.Classification | swagger/swagger.go:159-199 | The k-th parameter setInput hands over belongs to the k-th tagged field. When present, it is required, rejects empty values, and is named by that field's tag. It is in the path exactly when the route has the segment `:name`. |
| Generator.CollectPathParams | swagger/swagger.go:159-166 | The first loop of setInput collects the `:`-stripped names of the `:` segments, in path order. |
| Generator.Contains | swagger/swagger.go:173-178 | The search finds the field name exactly when it is one of the path parameters. |
| Generator.SwaggerGen.SetInput | swagger/swagger.go:154-200 | After one pointer level is removed from the input type, the operation's parameter list is extended by exactly the parameters of its tagged fields, in field order. Responses are unchanged. |
| Generator.SwaggerGen.AddInputParam | swagger/swagger.go:169-198 | One iteration of setInput's field loop: a tagged field appends its path or query parameter, and an untagged field appends nothing. |
| Definitions.PropertyName | swagger/swagger.go:229-233 | Without a `,` the tag is the name as written. With one, the name is the text before the first `,` with no white space at either end. |
| Strings.SplitSeveral | swagger/swagger.go:230-231 | A tag splits into more than one piece at `,` exactly when it holds a `,`, so testing for a `,` is the source's `len(fNameParts) > 1` test. |
| Strings.TrimSpaceInfix | swagger/swagger.go:232 | Trimming cuts exactly the white space around an infix with no white space at its ends: for any such infix, the result is that infix. |
| Definitions.PropertyNameTrims | swagger/swagger.go:229-233 | A tag with a `,` exposes the text before its first `,`, trimmed of white space, whatever follows the `,`. |
| Definitions.NameBeforeModifiers | swagger/swagger.go:229-233 | A trimmed name followed by `,` and any modifiers (such as `omitempty`) exposes exactly that name. |
| Definitions.Dispatch | swagger/swagger.go:253-284 | The kind switch, both ways, for every kind. A struct is a `$ref` to `#/definitions/<Name>`. Int8/Uint8 is an array of int8. Int32/Uint32, the 64-bit integers, Float32, Float64 and Bool each have their property. An interface is an inline empty object. A string and every kind without a case are a string. |
| Definitions.FieldSchema | swagger/swagger.go:235-284 | A slice field's schema is an array around the dispatch of its dereferenced element. Any other field, pointer chains included, gets the dispatch of its dereferenced type. |
| Definitions.SetField | swagger/swagger.go:224-227 | A tagged field sets the property its name exposes to its schema. Every other property, and the whole map for an untagged field, is left as it was. |
| Definitions.PropertiesKeys | swagger/swagger.go:221-285 | A definition's properties are exactly the names its tagged fields expose. |
| Definitions.PropertyLastWins | swagger/swagger.go:221-285 | When several fields expose the same name, the property is the schema of the last of them. |
| Definitions.PropertyKept | swagger/swagger.go:221-285 | A name that no later field exposes keeps its value. |
| Definitions.AddDefKeys | swagger/swagger.go:209-288 | Registering a record adds exactly the names of the records reachable from it through tagged fields, itself included. |
| Definitions.AddNestedKeys | swagger/swagger.go:221-285 | The field loop adds exactly the names reachable from the remaining fields. |
| Definitions.AddNestedKeysRegistering | swagger/swagger.go:267-269 | The same, for a field whose target is a record: that record and what it reaches are registered first. |
| Definitions.AddDefOverwrites | swagger/swagger.go:287 | Registration only overwrites: the result is the earlier map updated with what registration writes on an empty map. |
| Definitions.AddNestedOverwrites | swagger/swagger.go:267-269 | The same for the nested registrations of the remaining fields. |
| Definitions.AddDefKeepsOthers | swagger/swagger.go:209-288 | An entry whose name is not reachable from the record is left as it was. |
| Definitions.AddDefIdempotent | swagger/swagger.go:209-288 | Registering the same record twice gives the same map as registering it once. |
| Definitions.AddDefOwnEntry | swagger/swagger.go:287 | The record's own entry is its definition, written last, whatever a nested record of the same name wrote. |
| DefinitionEntries.AddDefEntry | swagger/swagger.go:209-288 | The entry of every record reachable from the registered one, itself included, is that record's definition. This holds when every reachable record of that name has the same definition. |
| DefinitionEntries.AddNestedEntry | swagger/swagger.go:267-269 | The same for the records reachable from the remaining fields. |
| DefinitionEntries.AddDefKeeps | swagger/swagger.go:209-288 | An entry that every reachable record of that name agrees with is kept by the registration. |
| DefinitionEntries.AddNestedKeeps | swagger/swagger.go:267-269 | The same for the nested registrations of the remaining fields. |
| Definitions.NestedReachable | swagger/swagger.go:267-269 | A tagged field whose target is a struct makes that struct reachable, hence registered. |
| Generator.SwaggerGen.AddDefinition | swagger/swagger.go:209-288 | After one pointer level is removed, the definitions map becomes exactly `AddDef` of the old map and the record. Paths and tags are unchanged. |
| Generator.SwaggerGen.AddField | swagger/swagger.go:221-285 | One iteration of the field loop. It sets the property as `SetField` does. It registers the field's target record first when the field is tagged and its target is a record, and changes nothing else. |
| Generator.SwaggerGen.SchemaFor | swagger/swagger.go:253-284 | The kind switch yields `Dispatch` of the type. It registers the type when it is a struct and changes nothing else. |
| Operations.MethodCaseInsensitive | swagger/swagger.go:120 | A route's method selects the same slot whatever its case. |
| Operations.ToUpperIdempotent | swagger/swagger.go:120 | Upper-casing an upper-cased method changes nothing. |
| Operations.LabelsForConcat | swagger/swagger.go:98 | The labels of a code over two runs of possible errors are those of the first run followed by those of the second. |
| Operations.ErrorResponsesKeys | swagger/swagger.go:94-107 | One response per status code: the 200 response's code plus the codes of the possible errors. |
| Operations.ErrorsGroupedByCode | swagger/swagger.go:94-107 | The response for a status code refers to the payload of the last error with that code. Its description is "Items: " followed by the labels of all errors with that code, joined with ", ", in declaration order. |
| Operations.ErrorDefinitionsKeys | swagger/swagger.go:95-97 | The error loop adds exactly the names of the error payload records and of the records they reach. |
| Operations.ErrorResponsesKeepOthers | swagger/swagger.go:94-107 | A status code no possible error has keeps its earlier response. |
| Operations.RestOnly | swagger/swagger.go:109-112 | Only route selectors are kept, and there is one exactly when the original has one. |
| Operations.RestOnlyExact | swagger/swagger.go:109-112 | The kept selectors are exactly the route selectors, each as often as it occurs, and no other selector. |
| Operations.RestOnlyInOrder | swagger/swagger.go:109-112 | The kept selectors appear in the original order, as a subsequence of the selectors. |
| Operations.OtherSelectorsAddNoParams | swagger/swagger.go:109-112 | Dropping the non-REST selectors leaves the parameters unchanged. |
| Operations.OtherSelectorsAddNoDefinitions | swagger/swagger.go:109-112 | Dropping the non-REST selectors leaves the definitions unchanged. |
| Operations.OtherSelectorsStoreNothing | swagger/swagger.go:109-112 | Dropping the non-REST selectors leaves the paths unchanged. |
| Operations.InputParamsSimple | swagger/swagger.go:181-197 | setInput never adds a body parameter. |
| Operations.BodyOnlyForPostPutPatch | swagger/swagger.go:120-149 | A route's parameters include a body parameter exactly when its upper-cased method is POST, PUT or PATCH. That parameter is the input record's, named after it and referring to its definition, and comes last. |
| Operations.RouteKeys | swagger/swagger.go:115-116 | One route adds exactly the names reachable from the input record and from the output record. |
| Operations.SelectorDefinitionsKeys | swagger/swagger.go:108-116 | The selector loop adds exactly the names reachable from the input and output records when some selector is a route, and nothing otherwise. |
| Operations.ContractDefinitionsKeys | swagger/swagger.go:94-151 | One contract adds exactly the names reachable from its error payloads, and from its input and output when it has a route. |
| Operations.ContractsDefinitionsKeys | swagger/swagger.go:56-58 | A service's contracts add exactly the names each of them reaches. |
| Operations.ServicesDefinitionsKeys | swagger/swagger.go:54-59 | The document's definitions are exactly the names reached from every contract of every service. |
| Operations.StorePathsKeys | swagger/swagger.go:108-151 | The paths map gains exactly the rewritten paths of the REST selectors. |
| Operations.StorePathsSlot | swagger/swagger.go:118-150 | A route with GET, DELETE, POST, PUT or PATCH leaves the operation in that method's slot at its rewritten path. |
| Operations.StorePathsKeepSlot | swagger/swagger.go:118-150 | A slot that no route addresses keeps what it held: the other methods of a path are left alone. |
| Operations.ServiceTags | swagger/swagger.go:54-55 | One tag per service, named after it and without description, in service order. |
| Generator.SwaggerGen.AddErrors | swagger/swagger.go:94-107 | The first loop of addOperation. It registers every error payload in order and sets each error's response: one per code, described by all the labels of that code so far. Parameters and paths are unchanged. |
| Generator.SwaggerGen.AddRoutes | swagger/swagger.go:108-151 | The second loop of addOperation. The operation's parameters, the definitions and the paths become exactly the folds over the selectors, and the responses are unchanged. |
| Generator.SwaggerGen.AddSelector | swagger/swagger.go:108-113 | A REST selector is handled as one route. Any other selector changes nothing. |
| Generator.SwaggerGen.AddRoute | swagger/swagger.go:114-150 | One route appends the input's parameters, then the body parameter for POST/PUT/PATCH. It registers the input and then the output record. It stores the operation at the rewritten path under its method. The responses and the tags are unchanged. |
| Generator.SwaggerGen.PlaceOperation | swagger/swagger.go:120-149 | The method switch puts the operation in the slot of the upper-cased method, or leaves the item unchanged for any other method. It adds the body parameter exactly for POST, PUT and PATCH. |
| Generator.SwaggerGen.AddOperation | swagger/swagger.go:71-152 | A fresh operation with the contract's name, the service's tag and JSON media types. Its responses are the 200 response referring to the output record, then one per error code. Its parameters are those of every route. The definitions, the paths and the tags are updated as described above. |
| Generator.AddTag | swagger/swagger.go:202-207 | The service's tag, without description, is appended to the tags. Nothing else changes. |
| Generator.SwaggerGen.AddContracts | swagger/swagger.go:56-58 | The inner loop of WriteTo registers the definitions of every contract in order, and the paths gain exactly the rewritten paths of their routes. The tags are unchanged. |
| Generator.SwaggerGen.WriteTo | swagger/swagger.go:53-59 | The service loop appends one tag per service and registers the definitions of every contract in order. The paths gain exactly the rewritten paths of all routes. |
| Generator.SwaggerGen.constructor | swagger/swagger.go:21-36 | A fresh document: the info block from the arguments, schemes http and https, version "2.0", no tags, paths or definitions, and no tag name yet. |
| Generator.SwaggerGen.WithTag | swagger/swagger.go:38-42 | Sets the struct-tag key that supplies field names. |
| Fixture.SampleRouteRewritten | swagger/swagger_test.go:56 | The test route `/some/:x/:y` is rewritten to `/some/{x}/{y}`. |
| Fixture.SampleRoutePathParams | swagger/swagger_test.go:56 | The path parameters of the test route are x and y. |
| Fixture.SampleReqParams | swagger/swagger_test.go:14-19 | On the test route, `sampleReq` gives path parameters x and y (string/string), query parameter z (integer/int64), and query parameter w (string/"slice"). |
| Fixture.ByteSliceField | swagger/swagger_test.go:23 | A `[]byte` field becomes an array of arrays of int8. |
| Fixture.PointerToSliceField | swagger/swagger.go:236-241 | A pointer to a slice is unwrapped as a pointer only, and its slice kind falls back to a string. |

## Left out

- Writing the document:
  - JSON encoding of the document and the write to the `io.Writer` (swagger/swagger.go:61-68) are not modelled. The model stops where the document is complete in memory.
  - `WriteToFile` (swagger/swagger.go:44-51) is file creation only and is not modelled.
- The go-openapi `spec` library is not part of this model:
  - `RespondsWith` and `SetProperty` are taken to be map updates, the last write winning.
  - `AddParam` only records its argument, nil included (`None`). What the library does with repeated names or a nil parameter is not modelled.
  - The parameter and schema builders are plain datatype values.
- Go reflection is replaced by the `Type` descriptor:
  - Embedded fields appear as ordinary fields and, like any untagged field, are skipped.
  - Struct tags are key/value maps. Tag-syntax parsing is not modelled.
- The `fmt.Println` of an unsupported kind (swagger/swagger.go:282) is console output and is left out. The fallback string schema it accompanies is modelled.
- Panics are not modelled. `NumField` (swagger/swagger.go:168, 221) panics when the input, output or an error payload is not a struct after one pointer level is removed (a `**T`, say). The model requires these types to be records instead: `WellTyped` on a contract, and `IsRecord` on the generator's methods.
- Named non-struct types (`type ID int`) are not described. Their Go `Name()` is the declared name, but the descriptor has no place for it: `TypeName` gives the kind's own name for a predeclared type (`int`, `string`, ...), the declared name for a struct, and "" for pointers, slices, interfaces and the other composite kinds.
- Cyclic struct graphs cannot be described by the inductive descriptor. On them `addDefinition` would not terminate.
- `strings.ToUpper` is modelled on ASCII letters plus the two non-ASCII letters whose upper case is ASCII (U+0131, U+017F). Every other character is left as it is. This is enough for comparing against the five method names, but it is not Unicode upper-casing in general.
- Generator.SwaggerGen.WriteTo: states the new tags and definitions in full, but for the paths only their keys, because a path item's slots are stated per operation by `AddOperation`, `StorePathsSlot` and `StorePathsKeepSlot`.
- Generator.SwaggerGen.AddContracts: states the definitions and tags in full, but for the paths only their keys. The operation placed under each path is stated per contract by `AddOperation`, `StorePathsSlot` and `StorePathsKeepSlot`.
- Generator.SwaggerGen.AddOperation: the operation it creates is returned as a ghost value so that its contract can speak of it; in the source it is not returned.
- Two behaviours follow the source as written:
  - setInput takes the whole tag as the parameter name, modifiers after a `,` included (addDefinition strips them).
  - A pointer to a slice is not wrapped in an array: its slice kind falls back to a string schema (`Fixture.PointerToSliceField`).
- The other types of the test fixture (`sampleRes`, `anotherRes`, `sampleError`) and its printing are not modelled. Only `sampleReq`, its route and the `[]byte` field of `subRes` are.
