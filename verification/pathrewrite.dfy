/**
 * The path rewriter: a route pattern written with `:name` segments becomes
 * an OpenAPI path template with `{name}` segments (swagger/swagger.go,
 * replacePath).
 */
module PathRewrite {
  import opened Strings

  /** One segment: `:rest` becomes `{rest}`, every other segment stays as it is. */
  function RewriteSegment(seg: string): (r: string)
    ensures HasPrefix(seg, ":") ==> r == "{" + seg[1..] + "}"
    ensures !HasPrefix(seg, ":") ==> r == seg
    ensures '/' !in seg ==> '/' !in r
    ensures r == "" <==> seg == ""
  {
    if HasPrefix(seg, ":") then "{" + seg[1..] + "}" else seg
  }

  function RewriteSegments(segs: seq<string>): (r: seq<string>)
    ensures |r| == |segs|
    ensures forall i :: 0 <= i < |segs| ==> r[i] == RewriteSegment(segs[i])
  {
    seq(|segs|, i requires 0 <= i < |segs| => RewriteSegment(segs[i]))
  }

  /** The rewritten path: the segments between `/`, each rewritten, joined again by `/`. */
  function RewritePath(path: string): string {
    Join(RewriteSegments(Split(path, '/')), "/")
  }

  lemma RewriteSegmentsSnoc(segs: seq<string>, seg: string)
    ensures RewriteSegments(segs + [seg]) == RewriteSegments(segs) + [RewriteSegment(seg)]
  {
  }

  /** replacePath: the loop over the segments appending to a builder. */
  method ReplacePath(path: string) returns (r: string)
    ensures r == RewritePath(path)
  {
    var parts := Split(path, '/');
    var sb := "";
    var idx := 0;
    while idx < |parts|
      invariant 0 <= idx <= |parts|
      invariant sb == Join(RewriteSegments(parts[..idx]), "/")
    {
      var p := parts[idx];
      var piece;
      if HasPrefix(p, ":") {
        piece := "{" + p[1..] + "}";
      } else {
        piece := p;
      }
      assert parts[..idx + 1] == parts[..idx] + [p];
      RewriteSegmentsSnoc(parts[..idx], p);
      if idx > 0 {
        JoinSnoc(RewriteSegments(parts[..idx]), piece, "/");
        sb := sb + "/";
      }
      sb := sb + piece;
      idx := idx + 1;
    }
    assert parts[..idx] == parts;
    r := sb;
  }

  /** The segments of the rewritten path are the rewritten segments, in the same order. */
  lemma SegmentsRewritten(path: string)
    ensures Split(RewritePath(path), '/') == RewriteSegments(Split(path, '/'))
  {
    var segs := Split(path, '/');
    SplitPiecesFree(path, '/');
    var rs := RewriteSegments(segs);
    forall i | 0 <= i < |rs| ensures '/' !in rs[i] {
      assert '/' !in segs[i];
    }
    SplitJoin(rs, '/');
  }

  /** Rewriting keeps the number of `/` separators. */
  lemma SeparatorsKept(path: string)
    ensures multiset(RewritePath(path))['/'] == multiset(path)['/']
  {
    SegmentsRewritten(path);
    SplitCount(path, '/');
    SplitCount(RewritePath(path), '/');
  }

  /** A path starts with `/` exactly when its rewriting does. */
  lemma LeadingSlashKept(path: string)
    ensures (|path| > 0 && path[0] == '/') <==> (|RewritePath(path)| > 0 && RewritePath(path)[0] == '/')
  {
    SegmentsRewritten(path);
    LeadingSeparator(path, '/');
    LeadingSeparator(RewritePath(path), '/');
  }

  /** A path without `:` segments is returned unchanged. */
  lemma NoParametersUnchanged(path: string)
    requires forall i :: 0 <= i < |Split(path, '/')| ==> !HasPrefix(Split(path, '/')[i], ":")
    ensures RewritePath(path) == path
  {
    assert RewriteSegments(Split(path, '/')) == Split(path, '/');
    JoinSplit(path, '/');
  }
}
