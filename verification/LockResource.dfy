/** Lockable resources as paths in a tree, and what it means for two of them to overlap. */
module LockResource {
  import opened Prelude

  datatype Resource =
    | Workspace(workspaceId: string)
    | Directory(workspaceId: string, path: string)
    | File(workspaceId: string, path: string)
    | Symbol(workspaceId: string, path: string, symbol: string)

  predicate Separator(c: char) {
    c == '/' || c == '\\'
  }

  /** Splits at every separator; `current` is the piece read so far. */
  function Split(path: string, current: string): seq<string> {
    if path == "" then [current]
    else if Separator(path[0]) then [current] + Split(path[1..], "")
    else Split(path[1..], current + [path[0]])
  }

  function Significant(pieces: seq<string>): seq<string> {
    if pieces == [] then []
    else if pieces[0] == "" || pieces[0] == "." then Significant(pieces[1..])
    else [pieces[0]] + Significant(pieces[1..])
  }

  function PathSegments(path: string): seq<string> {
    Significant(Split(path, ""))
  }

  function Segments(r: Resource): seq<string> {
    ["workspace:" + r.workspaceId] +
    match r
    case Workspace(_) => []
    case Directory(_, path) => PathSegments(path)
    case File(_, path) => PathSegments(path) + ["$file"]
    case Symbol(_, path, symbol) => PathSegments(path) + ["$file", "$symbol:" + symbol]
  }

  predicate IsPrefix(left: seq<string>, right: seq<string>) {
    |left| <= |right| && forall i :: 0 <= i < |left| ==> left[i] == right[i]
  }

  predicate Overlaps(a: Resource, b: Resource) {
    a.workspaceId == b.workspaceId &&
    (IsPrefix(Segments(a), Segments(b)) || IsPrefix(Segments(b), Segments(a)))
  }

  /** The subtree of a resource: every segment list that extends its own. */
  ghost predicate InSubtree(point: seq<string>, r: Resource) {
    Segments(r) <= point
  }

  lemma SameRoot(a: Resource, b: Resource)
    requires Segments(a)[0] == Segments(b)[0]
    ensures a.workspaceId == b.workspaceId
  {
    var root := "workspace:";
    assert a.workspaceId == (root + a.workspaceId)[|root|..];
    assert b.workspaceId == (root + b.workspaceId)[|root|..];
  }

  /** Two resources overlap exactly when their subtrees share a point. */
  lemma OverlapIsSharedSubtree(a: Resource, b: Resource)
    ensures Overlaps(a, b) <==> exists point :: InSubtree(point, a) && InSubtree(point, b)
  {
    var x, y := Segments(a), Segments(b);
    if Overlaps(a, b) {
      var point := if |x| <= |y| then y else x;
      assert InSubtree(point, a) && InSubtree(point, b);
    }
    if exists point :: InSubtree(point, a) && InSubtree(point, b) {
      var point :| InSubtree(point, a) && InSubtree(point, b);
      assert forall i :: 0 <= i < |x| ==> x[i] == point[i];
      assert forall i :: 0 <= i < |y| ==> y[i] == point[i];
      SameRoot(a, b);
    }
  }

  lemma OverlapSymmetric(a: Resource, b: Resource)
    ensures Overlaps(a, b) == Overlaps(b, a)
  {
  }
}
