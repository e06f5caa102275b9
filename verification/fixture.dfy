/**
 * The route and the record types of the accompanying test fixture
 * (swagger/swagger_test.go), as descriptors, and what the generator makes
 * of them.
 */
module Fixture {
  import opened Wrappers
  import opened Strings
  import opened Types
  import opened OpenApi
  import opened PathRewrite
  import opened Parameters
  import opened Definitions

  function SampleRoute(): string {
    "/some/:x/:y"
  }

  function SampleReq(): Type {
    Struct("sampleReq", [
      Field(map["json" := "x"], String), Field(map["json" := "y"], String),
      Field(map["json" := "z"], Int64), Field(map["json" := "w"], Slice(String))])
  }

  /** The fixture's route splits into an empty segment, "some" and the two parameter segments. */
  lemma SampleRouteSegments()
    ensures Split(SampleRoute(), '/') == ["", "some", ":x", ":y"]
  {
    var segs := ["", "some", ":x", ":y"];
    SplitJoin(segs, '/');
    assert Join(segs, "/") == SampleRoute();
  }

  /** replacePath turns the fixture's route into "/some/{x}/{y}". */
  lemma SampleRouteRewritten()
    ensures RewritePath(SampleRoute()) == "/some/{x}/{y}"
  {
    SampleRouteSegments();
    SampleSegmentsRewritten();
    SampleTemplateJoined();
  }

  lemma SampleSegmentsRewritten()
    ensures RewriteSegments(["", "some", ":x", ":y"]) == ["", "some", "{x}", "{y}"]
  {
    var segs := ["", "some", ":x", ":y"];
    var rs := RewriteSegments(segs);
    assert !HasPrefix(segs[0], ":");
    assert segs[1][..1][0] == 's';
    assert HasPrefix(segs[2], ":") && segs[2][1..] == "x";
    assert HasPrefix(segs[3], ":") && segs[3][1..] == "y";
    assert rs[0] == "" && rs[1] == "some" && rs[2] == "{x}" && rs[3] == "{y}";
  }

  lemma SampleTemplateJoined()
    ensures Join(["", "some", "{x}", "{y}"], "/") == "/some/{x}/{y}"
  {
    JoinSnoc(["", "some"], "{x}", "/");
    JoinSnoc(["", "some", "{x}"], "{y}", "/");
  }

  /** The path parameters of the fixture's route are x and y. */
  lemma SampleRoutePathParams()
    ensures PathParams(Split(SampleRoute(), '/')) == ["x", "y"]
  {
    SampleRouteSegments();
    SampleSegmentsPathParams();
  }

  lemma SampleSegmentsPathParams()
    ensures PathParams(["", "some", ":x", ":y"]) == ["x", "y"]
  {
    var s0, s1, s2, s3 := "", "some", ":x", ":y";
    assert s1[..1][0] == 's';
    assert HasPrefix(s2, ":") && s2[1..] == "x";
    assert HasPrefix(s3, ":") && s3[1..] == "y";
    PathParamsSnoc([], s0);
    assert [] + [s0] == [s0] && PathParams([s0]) == [];
    PathParamsSnoc([s0], s1);
    assert [s0] + [s1] == [s0, s1] && PathParams([s0, s1]) == [];
    PathParamsSnoc([s0, s1], s2);
    assert [s0, s1] + [s2] == [s0, s1, s2] && PathParams([s0, s1, s2]) == ["x"];
    PathParamsSnoc([s0, s1, s2], s3);
    assert [s0, s1, s2] + [s3] == [s0, s1, s2, s3];
  }

  /**
   * On the fixture's route, x and y become path parameters and z and w
   * query parameters; w, a slice of strings, is typed by its element.
   */
  lemma SampleReqParams()
    ensures InputParams(SampleReq(), 0, "json", PathParams(Split(SampleRoute(), '/'))) == [
      Some(Simple("x", InPath, true, false, "string", "string")),
      Some(Simple("y", InPath, true, false, "string", "string")),
      Some(Simple("z", InQuery, true, false, "integer", "int64")),
      Some(Simple("w", InQuery, true, false, "string", "slice"))]
  {
    SampleRoutePathParams();
    SampleFieldParams();
  }

  lemma SampleFieldParams()
    ensures InputParams(SampleReq(), 0, "json", ["x", "y"]) == [
      Some(Simple("x", InPath, true, false, "string", "string")),
      Some(Simple("y", InPath, true, false, "string", "string")),
      Some(Simple("z", InQuery, true, false, "integer", "int64")),
      Some(Simple("w", InQuery, true, false, "string", "slice"))]
  {
    var req := SampleReq();
    var pp := ["x", "y"];
    var w := Some(Simple("w", InQuery, true, false, "string", "slice"));
    var z := Some(Simple("z", InQuery, true, false, "integer", "int64"));
    var y := Some(Simple("y", InPath, true, false, "string", "string"));
    var x := Some(Simple("x", InPath, true, false, "string", "string"));
    SampleParamFor();
    assert InputParams(req, 3, "json", pp) == [w];
    assert InputParams(req, 2, "json", pp) == [z, w];
    assert InputParams(req, 1, "json", pp) == [y, z, w];
  }

  lemma SampleParamFor()
    ensures ParamFor("x", String, ["x", "y"]) == Some(Simple("x", InPath, true, false, "string", "string"))
    ensures ParamFor("y", String, ["x", "y"]) == Some(Simple("y", InPath, true, false, "string", "string"))
    ensures ParamFor("z", Int64, ["x", "y"]) == Some(Simple("z", InQuery, true, false, "integer", "int64"))
    ensures ParamFor("w", Slice(String), ["x", "y"]) == Some(Simple("w", InQuery, true, false, "string", "slice"))
  {
    assert "z"[0] == 'z' && "w"[0] == 'w';
    assert "z" !in ["x", "y"] && "w" !in ["x", "y"];
  }

  /**
   * subRes.Another, a []byte field, becomes an array of arrays of int8:
   * the slice wraps the schema of the byte kind, itself an int8 array.
   */
  lemma ByteSliceField()
    ensures FieldSchema(Slice(Uint8)) == Array(Array(Prop(Int8Prop)))
  {
  }

  /** A pointer to a slice is not unwrapped as a slice: the slice kind has no case and falls back to a string. */
  lemma PointerToSliceField()
    ensures FieldSchema(Ptr(Slice(Int64))) == Prop(StringProp)
  {
  }
}
