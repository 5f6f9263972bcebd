/** Overlap in terms of the paths that clients write: how a path is read, and which directories, files and symbols
    stand in each other's way. */
module LockPath {
  import opened Prelude
  import opened LockResource

  // ----- Reading a path -------------------------------------------------------------------------------------------

  lemma {:induction false} SplitAtSeparator(a: string, c: char, b: string, current: string)
    requires Separator(c)
    ensures Split(a + [c] + b, current) == Split(a, current) + Split(b, "")
  {
    if a == "" {
      assert (a + [c] + b)[0] == c && (a + [c] + b)[1..] == b;
    } else {
      assert (a + [c] + b)[0] == a[0] && (a + [c] + b)[1..] == a[1..] + [c] + b;
      SplitAtSeparator(a[1..], c, b, if Separator(a[0]) then "" else current + [a[0]]);
    }
  }

  lemma {:induction false} SignificantAppend(a: seq<string>, b: seq<string>)
    ensures Significant(a + b) == Significant(a) + Significant(b)
  {
    if a == [] {
      assert a + b == b;
    } else {
      assert (a + b)[0] == a[0] && (a + b)[1..] == a[1..] + b;
      SignificantAppend(a[1..], b);
    }
  }

  /** A path is read piece by piece, at either separator. */
  lemma PathsCompose(a: string, c: char, b: string)
    requires c == '/' || c == '\\'
    ensures PathSegments(a + [c] + b) == PathSegments(a) + PathSegments(b)
  {
    SplitAtSeparator(a, c, b, "");
    SignificantAppend(Split(a, ""), Split(b, ""));
  }

  /** A piece that means itself. */
  predicate Clean(piece: string) {
    && piece != "" && piece != "." && piece != "$file"
    && forall i :: 0 <= i < |piece| ==> piece[i] != '/' && piece[i] != '\\'
  }

  predicate AllClean(pieces: seq<string>) {
    forall i :: 0 <= i < |pieces| ==> Clean(pieces[i])
  }

  lemma {:induction false} SplitPiece(piece: string, current: string)
    requires forall i :: 0 <= i < |piece| ==> !Separator(piece[i])
    ensures Split(piece, current) == [current + piece]
  {
    if piece == "" {
      assert current + piece == current;
    } else {
      SplitPiece(piece[1..], current + [piece[0]]);
      assert current + [piece[0]] + piece[1..] == current + piece;
    }
  }

  lemma OnePiece(piece: string)
    requires Clean(piece)
    ensures PathSegments(piece) == [piece]
  {
    SplitPiece(piece, "");
    assert "" + piece == piece;
    assert [piece][1..] == [] && Significant([]) == [];
    assert Significant([piece]) == [piece] + Significant([piece][1..]);
  }

  /** A piece that is empty or a dot means nothing. */
  lemma EmptyPieces()
    ensures PathSegments("") == [] && PathSegments(".") == []
  {
    SplitPiece(".", "");
    assert "" + "." == ".";
    assert ["."][1..] == [] && [""][1..] == [];
  }

  function Joined(pieces: seq<string>): string {
    if pieces == [] then "" else if |pieces| == 1 then pieces[0] else pieces[0] + ['/'] + Joined(pieces[1..])
  }

  /** Reading a written path gives back its pieces. */
  lemma {:induction false} PathRoundTrip(pieces: seq<string>)
    requires AllClean(pieces)
    ensures PathSegments(Joined(pieces)) == pieces
  {
    if pieces == [] {
      EmptyPieces();
    } else {
      OnePiece(pieces[0]);
      if |pieces| > 1 {
        PathRoundTrip(pieces[1..]);
        PathsCompose(pieces[0], '/', Joined(pieces[1..]));
      }
      assert pieces == [pieces[0]] + pieces[1..];
    }
  }

  // ----- Overlap ---------------------------------------------------------------------------------------------------

  /** A workspace overlaps everything in it, and nothing overlaps across workspaces. */
  lemma WorkspaceOverlaps(w: string, r: Resource)
    ensures Overlaps(Workspace(w), r) <==> r.workspaceId == w
  {
    if r.workspaceId == w {
      assert Segments(Workspace(w))[0] == Segments(r)[0];
    }
  }

  lemma Extends(root: string, dir: seq<string>, rest: seq<string>, tail: seq<string>)
    ensures IsPrefix([root] + dir, [root] + (dir + rest + tail))
  {
    assert [root] + (dir + rest + tail) == ([root] + dir) + (rest + tail);
  }

  /** A directory overlaps whatever lies under it, however its path is written. */
  lemma DirectoryOverlapsContents(w: string, dir: string, c: char, rest: string, symbol: string)
    requires c == '/' || c == '\\'
    ensures Overlaps(Directory(w, dir), Directory(w, dir + [c] + rest))
    ensures Overlaps(Directory(w, dir), File(w, dir + [c] + rest))
    ensures Overlaps(Directory(w, dir), Symbol(w, dir + [c] + rest, symbol))
  {
    PathsCompose(dir, c, rest);
    Extends("workspace:" + w, PathSegments(dir), PathSegments(rest), []);
    Extends("workspace:" + w, PathSegments(dir), PathSegments(rest), ["$file"]);
    Extends("workspace:" + w, PathSegments(dir), PathSegments(rest), ["$file", "$symbol:" + symbol]);
    assert PathSegments(dir) + PathSegments(rest) + [] == PathSegments(dir) + PathSegments(rest);
  }

  /** The segments of a resource after the workspace, given the pieces of its path. */
  lemma SegmentsAre(w: string, p: seq<string>, symbol: string)
    requires AllClean(p)
    ensures Segments(Directory(w, Joined(p))) == ["workspace:" + w] + p
    ensures Segments(File(w, Joined(p))) == ["workspace:" + w] + (p + ["$file"])
    ensures Segments(Symbol(w, Joined(p), symbol)) == ["workspace:" + w] + (p + ["$file", "$symbol:" + symbol])
  {
    PathRoundTrip(p);
  }

  lemma BelowRoot(root: string, a: seq<string>, b: seq<string>)
    ensures IsPrefix([root] + a, [root] + b) <==> a <= b
  {
    if a <= b {
      assert [root] + b == ([root] + a) + b[|a|..];
    }
    if IsPrefix([root] + a, [root] + b) {
      forall i | 0 <= i < |a| ensures a[i] == b[i] {
        assert ([root] + a)[i + 1] == ([root] + b)[i + 1];
      }
    }
  }

  /** Where a clean path goes on beyond another one, it differs from the tail of a file. */
  lemma TailDiffers(p: seq<string>, a: seq<string>, q: seq<string>, b: seq<string>)
    requires AllClean(q) && a != [] && a[0] == "$file"
    ensures |p| < |q| ==> (p + a)[|p|] == "$file" && (q + b)[|p|] == q[|p|] != "$file"
  {
  }

  lemma PrefixSplits(p: seq<string>, q: seq<string>, b: seq<string>)
    requires |p| <= |q|
    ensures p <= q + b <==> p <= q
  {
    assert |p| <= |q| ==> (q + b)[..|p|] == q[..|p|];
  }

  /** A clean path is a prefix of a file's segments exactly if it is one of its path; never the other way round. */
  lemma PrefixOfFile(p: seq<string>, q: seq<string>, tail: seq<string>)
    requires AllClean(p) && tail != [] && tail[0] == "$file"
    ensures p <= q + tail <==> p <= q
    ensures !(q + tail <= p)
  {
    TailDiffers(q, tail, p, []);
    assert p + [] == p;
    if |p| <= |q| {
      PrefixSplits(p, q, tail);
    }
  }

  /** Two files or symbols: the paths must be the same, and one tail a prefix of the other. */
  lemma PrefixOfLeaf(p: seq<string>, q: seq<string>, a: seq<string>, b: seq<string>)
    requires AllClean(p) && AllClean(q) && a != [] && b != [] && a[0] == b[0] == "$file"
    ensures p + a <= q + b <==> p == q && a <= b
  {
    TailDiffers(p, a, q, b);
    TailDiffers(q, b, p, a);
    if |p| == |q| {
      assert (p + a)[..|p|] == p && (q + b)[..|q|] == q && (p + a)[|p|..] == a && (q + b)[|q|..] == b;
    }
  }

  /** Directories overlap exactly if one lies in the other, or they are the same. */
  lemma DirectoriesOverlapIff(w: string, p: seq<string>, q: seq<string>)
    requires AllClean(p) && AllClean(q)
    ensures Overlaps(Directory(w, Joined(p)), Directory(w, Joined(q))) <==> p <= q || q <= p
  {
    SegmentsAre(w, p, "");
    SegmentsAre(w, q, "");
    BelowRoot("workspace:" + w, p, q);
    BelowRoot("workspace:" + w, q, p);
  }

  /** A directory overlaps a file, or a symbol in one, exactly if the file lies in it. */
  lemma DirectoryOverlapsFileIff(w: string, p: seq<string>, q: seq<string>, symbol: string)
    requires AllClean(p) && AllClean(q)
    ensures Overlaps(Directory(w, Joined(p)), File(w, Joined(q))) <==> p <= q
    ensures Overlaps(Directory(w, Joined(p)), Symbol(w, Joined(q), symbol)) <==> p <= q
  {
    SegmentsAre(w, p, symbol);
    SegmentsAre(w, q, symbol);
    var file, sym := ["$file"], ["$file", "$symbol:" + symbol];
    PrefixOfFile(p, q, file);
    PrefixOfFile(p, q, sym);
    BelowRoot("workspace:" + w, p, q + file);
    BelowRoot("workspace:" + w, q + file, p);
    BelowRoot("workspace:" + w, p, q + sym);
    BelowRoot("workspace:" + w, q + sym, p);
  }

  lemma SymbolTails(s: string, t: string)
    ensures ["$file", "$symbol:" + s] <= ["$file", "$symbol:" + t] <==> s == t
    ensures ["$file"] <= ["$file", "$symbol:" + s] && !(["$file", "$symbol:" + s] <= ["$file"])
  {
    var a, b := "$symbol:" + s, "$symbol:" + t;
    assert a[8..] == s && b[8..] == t;
    if ["$file", a] <= ["$file", b] {
      assert ["$file", a][1] == ["$file", b][1];
    }
  }

  /** Files overlap exactly if they are the same, a symbol overlaps exactly its own file, and symbols only
      themselves. */
  lemma FilesOverlapIff(w: string, p: seq<string>, q: seq<string>, s: string, t: string)
    requires AllClean(p) && AllClean(q)
    ensures Overlaps(File(w, Joined(p)), File(w, Joined(q))) <==> p == q
    ensures Overlaps(File(w, Joined(p)), Symbol(w, Joined(q), t)) <==> p == q
    ensures Overlaps(Symbol(w, Joined(p), s), Symbol(w, Joined(q), t)) <==> p == q && s == t
  {
    SegmentsAre(w, p, s);
    SegmentsAre(w, q, t);
    var file, a, b := ["$file"], ["$file", "$symbol:" + s], ["$file", "$symbol:" + t];
    SymbolTails(s, t);
    SymbolTails(t, s);
    LeavesBelowRoot("workspace:" + w, p, q, file, file);
    LeavesBelowRoot("workspace:" + w, p, q, file, b);
    LeavesBelowRoot("workspace:" + w, p, q, a, b);
  }

  lemma LeavesBelowRoot(root: string, p: seq<string>, q: seq<string>, a: seq<string>, b: seq<string>)
    requires AllClean(p) && AllClean(q) && a != [] && b != [] && a[0] == b[0] == "$file"
    ensures IsPrefix([root] + (p + a), [root] + (q + b)) <==> p == q && a <= b
    ensures IsPrefix([root] + (q + b), [root] + (p + a)) <==> p == q && b <= a
  {
    PrefixOfLeaf(p, q, a, b);
    PrefixOfLeaf(q, p, b, a);
    BelowRoot(root, p + a, q + b);
    BelowRoot(root, q + b, p + a);
  }
}
