/**
 * Sandboxing of file paths (AutoBot `PathSecurity`): whether a path lies
 * inside an allowed base directory, and safe resolution of a relative path.
 *
 * `Path.GetFullPath` is modelled as an explicit normaliser over
 * '/'-separated segments, relative to a current directory `cwd`: empty and
 * "." segments are dropped, ".." removes the previous segment (and stays at
 * the root), and the result is rendered as "/" followed by the segments.
 * As on Unix, a separator that ends the path is kept after the last
 * segment ("/base/" stays "/base/", while "/base/." becomes "/base").
 * It fails (the source's `catch`) on an empty path or one holding NUL.
 */
module PathSecurity {
  import opened Wrappers
  import opened Text

  const Separator: char := '/'

  /** A piece of a rendered path: non-empty and free of separators. */
  predicate IsPiece(x: string) {
    x != [] && Separator !in x
  }

  /** A segment of a normalised path. */
  predicate IsSegment(x: string) {
    IsPiece(x) && '\0' !in x && x != "." && x != ".."
  }

  predicate AllPieces(xs: seq<string>) {
    forall k :: 0 <= k < |xs| ==> IsPiece(xs[k])
  }

  predicate AllSegments(xs: seq<string>) {
    forall k :: 0 <= k < |xs| ==> IsSegment(xs[k])
  }

  /** A normalised absolute directory, as a list of segments from the root. */
  type Dir = xs: seq<string> | AllSegments(xs)

  /** `Path.IsPathRooted` on a Unix-style path. */
  predicate IsRooted(p: string) {
    |p| > 0 && p[0] == Separator
  }

  /** "/" followed by each segment, each preceded by a separator. */
  function Concat(xs: seq<string>): string {
    if xs == [] then "" else [Separator] + xs[0] + Concat(xs[1..])
  }

  /** The text of a normalised path; the root is "/". */
  function Render(xs: seq<string>): string {
    if xs == [] then [Separator] else Concat(xs)
  }

  /** One piece of a path, taken from directory `dir`. */
  function Step(dir: Dir, p: string): Dir
    requires Separator !in p && '\0' !in p
  {
    if p == "" || p == "." then dir
    else if p == ".." then (if dir == [] then [] else dir[..|dir| - 1])
    else dir + [p]
  }

  /** Walks the pieces of a path from directory `dir`. */
  function Walk(dir: Dir, pieces: seq<string>): (r: Dir)
    requires forall k :: 0 <= k < |pieces| ==> Separator !in pieces[k] && '\0' !in pieces[k]
    decreases |pieces|
  {
    if pieces == [] then dir else Walk(Step(dir, pieces[0]), pieces[1..])
  }

  /** The pieces of a NUL-free path are NUL-free. */
  lemma SplitPiecesNulFree(p: string)
    requires '\0' !in p
    ensures forall k :: 0 <= k < |Split(p, Separator)| ==> '\0' !in Split(p, Separator)[k]
  {
    var pieces := Split(p, Separator);
    JoinSplit(p, Separator);
    forall k | 0 <= k < |pieces|
      ensures '\0' !in pieces[k]
    {
      PieceInJoin(pieces, k, [Separator]);
    }
  }

  /** The segments `Path.GetFullPath` produces for `p`, or `None` where it throws. */
  function FullSegments(cwd: Dir, p: string): Option<Dir> {
    if p == [] || '\0' in p then None
    else
      SplitPiecesNulFree(p);
      Some(Walk(if IsRooted(p) then [] else cwd, Split(p, Separator)))
  }

  predicate EndsWithSeparator(p: string) {
    |p| > 0 && p[|p| - 1] == Separator
  }

  /** A normalised path, with a separator after the last segment when `trailing`; the root is "/" either way. */
  function RenderAs(xs: seq<string>, trailing: bool): string {
    if trailing && xs != [] then Concat(xs) + [Separator] else Render(xs)
  }

  /** `Path.GetFullPath(p)`, or `None` where it throws; a final separator of `p` is kept. */
  function GetFullPath(cwd: Dir, p: string): Option<string> {
    match FullSegments(cwd, p)
    case None => None
    case Some(xs) => Some(RenderAs(xs, EndsWithSeparator(p)))
  }

  /** `nb` with a trailing separator added unless it already has one. */
  function WithTrailingSeparator(nb: string): string {
    if EndsWithSeparator(nb) then nb else nb + [Separator]
  }

  /**
   * `Path.Combine(a, b)`: an empty operand yields the other, a rooted `b`
   * replaces `a`, and otherwise exactly one separator joins them.
   */
  function Combine(a: string, b: string): (r: string)
    ensures a == [] ==> r == b
    ensures b == [] ==> r == a
    ensures IsRooted(b) ==> r == b
    ensures a != [] && b != [] && !IsRooted(b) ==> r == WithTrailingSeparator(a) + b
  {
    if a == [] then b
    else if b == [] then a
    else if IsRooted(b) then b
    else if a[|a| - 1] == Separator then a + b
    else a + [Separator] + b
  }

  /**
   * `IsPathSafe(path, allowedBaseDirectory)`: equal to the base ignoring
   * case, or starting with the base followed by a separator.
   */
  predicate IsPathSafe(cwd: Dir, path: string, base: string) {
    if IsBlank(path) || IsBlank(base) then false
    else
      match (GetFullPath(cwd, path), GetFullPath(cwd, base))
      case (Some(np), Some(nb)) =>
        || EqualsIgnoreCase(np, nb)
        || ToLower(WithTrailingSeparator(nb)) <= ToLower(np)
      case _ => false
  }

  /** `IsPathSafe(path, allowedBaseDirectories)`: some base accepts the path. */
  function IsPathSafeAny(cwd: Dir, path: string, bases: seq<string>): (r: bool)
    ensures r <==> exists i :: 0 <= i < |bases| && IsPathSafe(cwd, path, bases[i])
  {
    if bases == [] then false
    else IsPathSafe(cwd, path, bases[0]) || IsPathSafeAny(cwd, path, bases[1..])
  }

  /** `ResolveSafePath(baseDirectory, relativePath)`; `None` is the source's `null`. */
  function ResolveSafePath(cwd: Dir, base: string, rel: string): (r: Option<string>)
    ensures IsBlank(base) || IsBlank(rel) ==> r == None
    ensures r.Some? ==> GetFullPath(cwd, Combine(base, rel)) == r && IsPathSafe(cwd, r.value, base)
    ensures (&& !IsBlank(base) && !IsBlank(rel) && GetFullPath(cwd, Combine(base, rel)).Some?
             && IsPathSafe(cwd, GetFullPath(cwd, Combine(base, rel)).value, base)) ==> r.Some?
  {
    if IsBlank(base) || IsBlank(rel) then None
    else
      match GetFullPath(cwd, Combine(base, rel))
      case None => None
      case Some(resolved) => if IsPathSafe(cwd, resolved, base) then Some(resolved) else None
  }

  /**
   * `IsPathSafeWithSymlinkResolution`: the path is first resolved by
   * `getRealPath` (the file system's link resolution, `None` when it fails).
   */
  function IsPathSafeWithSymlinkResolution(
    cwd: Dir, getRealPath: string -> Option<string>, path: string, base: string): (r: bool)
    ensures getRealPath(path).None? ==> !r
    ensures getRealPath(path).Some? ==> (r <==> IsPathSafe(cwd, getRealPath(path).value, base))
  {
    match getRealPath(path)
    case None => false
    case Some(realPath) => IsPathSafe(cwd, realPath, base)
  }

  /** `Path.TrimEndingDirectorySeparator`: one final separator goes, except from the root. */
  function TrimEndingSeparator(p: string): (r: string)
    ensures |p| > 1 && EndsWithSeparator(p) ==> r + [Separator] == p
    ensures !(|p| > 1 && EndsWithSeparator(p)) ==> r == p
  {
    if |p| > 1 && EndsWithSeparator(p) then p[..|p| - 1] else p
  }

  /**
   * `IsPathSafe` as its comment means it ("the base itself is allowed"):
   * both normalised paths lose a final separator before they are compared.
   */
  predicate IsPathSafeTrimmed(cwd: Dir, path: string, base: string) {
    if IsBlank(path) || IsBlank(base) then false
    else
      match (GetFullPath(cwd, path), GetFullPath(cwd, base))
      case (Some(np), Some(nb)) =>
        var p, b := TrimEndingSeparator(np), TrimEndingSeparator(nb);
        || EqualsIgnoreCase(p, b)
        || ToLower(WithTrailingSeparator(b)) <= ToLower(p)
      case _ => false
  }

  /** `ResolveSafePath` with the corrected check. */
  function ResolveSafePathTrimmed(cwd: Dir, base: string, rel: string): (r: Option<string>)
    ensures IsBlank(base) || IsBlank(rel) ==> r == None
    ensures r.Some? ==> GetFullPath(cwd, Combine(base, rel)) == r && IsPathSafeTrimmed(cwd, r.value, base)
    ensures (&& !IsBlank(base) && !IsBlank(rel) && GetFullPath(cwd, Combine(base, rel)).Some?
             && IsPathSafeTrimmed(cwd, GetFullPath(cwd, Combine(base, rel)).value, base)) ==> r.Some?
  {
    if IsBlank(base) || IsBlank(rel) then None
    else
      match GetFullPath(cwd, Combine(base, rel))
      case None => None
      case Some(resolved) => if IsPathSafeTrimmed(cwd, resolved, base) then Some(resolved) else None
  }

  // ---------------------------------------------------------------------
  // Containment: the string test of IsPathSafe is segment-prefix inclusion
  // ---------------------------------------------------------------------

  function LowerSegments(xs: seq<string>): (r: seq<string>)
    ensures |r| == |xs|
    ensures forall k :: 0 <= k < |xs| ==> r[k] == ToLower(xs[k])
  {
    seq(|xs|, k requires 0 <= k < |xs| => ToLower(xs[k]))
  }

  /**
   * The security property of `IsPathSafe`: a path is accepted exactly when
   * both paths normalise and the base's segments, case-folded, are a prefix
   * of the path's. A sibling such as "/base2" is therefore not inside "/base".
   * One more condition comes from the kept trailing separator: a base
   * written with a final separator accepts its own directory only when the
   * path also ends in one, so "/base" is not inside "/base/".
   */
  lemma IsPathSafeIsContainment(cwd: Dir, path: string, base: string)
    ensures IsPathSafe(cwd, path, base) <==>
      && !IsBlank(path) && !IsBlank(base)
      && FullSegments(cwd, path).Some? && FullSegments(cwd, base).Some?
      && LowerSegments(FullSegments(cwd, base).value) <= LowerSegments(FullSegments(cwd, path).value)
      && (EndsWithSeparator(base) && 0 < |FullSegments(cwd, base).value| == |FullSegments(cwd, path).value|
          ==> EndsWithSeparator(path))
  {
    if !IsBlank(path) && !IsBlank(base) && FullSegments(cwd, path).Some? && FullSegments(cwd, base).Some? {
      var ys := FullSegments(cwd, path).value;
      var xs := FullSegments(cwd, base).value;
      var tp, tb := EndsWithSeparator(path), EndsWithSeparator(base);
      SegmentsArePieces(ys);
      SegmentsArePieces(xs);
      LowerRenderAs(ys, tp);
      LowerRenderAs(xs, tb);
      LowerWithTrailingSeparator(RenderAs(xs, tb));
      RenderAsDecision(LowerSegments(xs), LowerSegments(ys), tb, tp);
    }
  }

  /** The corrected check is plain segment-prefix containment, trailing separators or not. */
  lemma IsPathSafeTrimmedIsContainment(cwd: Dir, path: string, base: string)
    ensures IsPathSafeTrimmed(cwd, path, base) <==>
      && !IsBlank(path) && !IsBlank(base)
      && FullSegments(cwd, path).Some? && FullSegments(cwd, base).Some?
      && LowerSegments(FullSegments(cwd, base).value) <= LowerSegments(FullSegments(cwd, path).value)
  {
    if !IsBlank(path) && !IsBlank(base) && FullSegments(cwd, path).Some? && FullSegments(cwd, base).Some? {
      var ys := FullSegments(cwd, path).value;
      var xs := FullSegments(cwd, base).value;
      SegmentsArePieces(ys);
      SegmentsArePieces(xs);
      TrimRenderAs(ys, EndsWithSeparator(path));
      TrimRenderAs(xs, EndsWithSeparator(base));
      LowerRender(ys);
      LowerRender(xs);
      LowerWithTrailingSeparator(Render(xs));
      RenderPrefixIffSegmentPrefix(LowerSegments(xs), LowerSegments(ys));
    }
  }

  /** Trimming a normalised path leaves it without its final separator. */
  lemma TrimRenderAs(xs: seq<string>, trailing: bool)
    requires AllSegments(xs)
    ensures TrimEndingSeparator(RenderAs(xs, trailing)) == Render(xs)
  {
    if xs != [] {
      assert AllPieces(xs);
      ConcatShape(xs);
      if trailing {
        assert (Concat(xs) + [Separator])[..|Concat(xs)|] == Concat(xs);
      }
    }
  }

  lemma SegmentsArePieces(xs: seq<string>)
    requires AllSegments(xs)
    ensures AllPieces(LowerSegments(xs))
  {
    forall k | 0 <= k < |xs|
      ensures IsPiece(LowerSegments(xs)[k])
    {
      assert Separator !in ToLower(xs[k]) by {
        forall i | 0 <= i < |xs[k]|
          ensures ToLower(xs[k])[i] != Separator
        {
          assert xs[k][i] != Separator;
        }
      }
    }
  }

  lemma {:induction false} LowerConcat(xs: seq<string>)
    ensures ToLower(Concat(xs)) == Concat(LowerSegments(xs))
  {
    if xs != [] {
      LowerConcat(xs[1..]);
      ToLowerAppend([Separator] + xs[0], Concat(xs[1..]));
      ToLowerAppend([Separator], xs[0]);
      assert LowerSegments(xs)[1..] == LowerSegments(xs[1..]);
    }
  }

  lemma LowerRender(xs: seq<string>)
    ensures ToLower(Render(xs)) == Render(LowerSegments(xs))
  {
    LowerConcat(xs);
  }

  lemma LowerRenderAs(xs: seq<string>, trailing: bool)
    ensures ToLower(RenderAs(xs, trailing)) == RenderAs(LowerSegments(xs), trailing)
  {
    LowerRender(xs);
    if trailing && xs != [] {
      LowerConcat(xs);
      ToLowerAppend(Concat(xs), [Separator]);
    }
  }

  lemma LowerWithTrailingSeparator(nb: string)
    ensures ToLower(WithTrailingSeparator(nb)) == WithTrailingSeparator(ToLower(nb))
  {
    ToLowerAppend(nb, [Separator]);
  }

  /** The rendered text starts with a separator. */
  lemma {:induction false} ConcatShape(xs: seq<string>)
    requires xs != [] && AllPieces(xs)
    ensures |Concat(xs)| >= 2 && Concat(xs)[0] == Separator
    ensures Concat(xs)[|Concat(xs)| - 1] != Separator
  {
    if |xs| > 1 {
      ConcatShape(xs[1..]);
    } else {
      assert Concat(xs) == [Separator] + xs[0];
    }
  }

  lemma {:induction false} ConcatAppend(xs: seq<string>, ys: seq<string>)
    ensures Concat(xs + ys) == Concat(xs) + Concat(ys)
  {
    if xs != [] {
      ConcatAppend(xs[1..], ys);
      assert (xs + ys)[1..] == xs[1..] + ys;
    } else {
      assert xs + ys == ys;
    }
  }

  /** Two separator-free words followed by separator-led tails: prefix exactly when the words agree. */
  lemma WordPrefix(x: string, y: string, s: string, t: string)
    requires Separator !in x && Separator !in y
    requires |s| > 0 && s[0] == Separator && |t| > 0 && t[0] == Separator
    ensures x + s <= y + t <==> x == y && s <= t
  {
    WordPrefixLength(x, y, s, t);
    if x + s <= y + t {
      assert x == (x + s)[..|x|] == (y + t)[..|y|] == y;
      assert s == (x + s)[|x|..];
      assert (y + t)[|y|..] == t;
    }
    if x == y && s <= t {
      assert x + s == (x + t)[..|x + s|];
    }
  }

  lemma WordPrefixLength(x: string, y: string, s: string, t: string)
    requires Separator !in x && Separator !in y
    requires |s| > 0 && s[0] == Separator && |t| > 0 && t[0] == Separator
    ensures x + s <= y + t ==> |x| == |y|
  {
    if |x| < |y| {
      assert (x + s)[|x|] == Separator;
      assert (y + t)[|x|] == y[|x|] != Separator;
    } else if |x| > |y| {
      assert (y + t)[|y|] == Separator;
      assert (x + s)[|y|] == x[|y|] != Separator;
    }
  }

  lemma SeqPrefixCons<T>(xs: seq<T>, ys: seq<T>)
    requires xs != [] && ys != []
    ensures xs <= ys <==> xs[0] == ys[0] && xs[1..] <= ys[1..]
  {
    if xs[0] == ys[0] && xs[1..] <= ys[1..] {
      assert xs == [xs[0]] + xs[1..];
      assert ys[..|xs|] == [ys[0]] + ys[1..][..|xs| - 1];
    }
  }

  /** Unfolds one segment of a rendered path followed by a separator. */
  lemma ConcatSeparatorCons(xs: seq<string>)
    requires xs != []
    ensures Concat(xs) + [Separator] == [Separator] + (xs[0] + (Concat(xs[1..]) + [Separator]))
  {
  }

  lemma ConsPrefix(c: char, a: string, b: string)
    ensures [c] + a <= [c] + b <==> a <= b
  {
    if [c] + a <= [c] + b {
      assert a == ([c] + a)[1..] && b == ([c] + b)[1..];
    }
    if a <= b {
      assert [c] + a == ([c] + b)[..|a| + 1];
    }
  }

  /** A rendered path followed by a separator begins with a separator. */
  lemma ConcatSeparatorLead(xs: seq<string>)
    requires AllPieces(xs)
    ensures var t := Concat(xs) + [Separator]; |t| > 0 && t[0] == Separator
  {
    if xs != [] { ConcatShape(xs); }
  }

  /** With a separator appended, rendered prefix is segment prefix. */
  lemma {:induction false} ConcatSeparatorPrefix(xs: seq<string>, ys: seq<string>)
    requires xs != [] && AllPieces(xs) && AllPieces(ys)
    ensures Concat(xs) + [Separator] <= Concat(ys) + [Separator] <==> xs <= ys
    decreases |xs|
  {
    ConcatShape(xs);
    if ys == [] {
      assert Concat(ys) + [Separator] == [Separator];
    } else {
      var x, y := xs[0], ys[0];
      var s, t := Concat(xs[1..]) + [Separator], Concat(ys[1..]) + [Separator];
      ConcatSeparatorCons(xs);
      ConcatSeparatorCons(ys);
      ConcatSeparatorLead(xs[1..]);
      ConcatSeparatorLead(ys[1..]);
      ConsPrefix(Separator, x + s, y + t);
      WordPrefix(x, y, s, t);
      SeqPrefixCons(xs, ys);
      if xs[1..] == [] {
        assert s == [Separator];
        assert s <= t;
      } else {
        ConcatSeparatorPrefix(xs[1..], ys[1..]);
      }
    }
  }

  /** The decision of IsPathSafe on normalised, case-folded paths, in terms of segments. */
  lemma RenderPrefixIffSegmentPrefix(xs: seq<string>, ys: seq<string>)
    requires AllPieces(xs) && AllPieces(ys)
    ensures (Render(ys) == Render(xs) || WithTrailingSeparator(Render(xs)) <= Render(ys)) <==> xs <= ys
  {
    if xs == [] {
      if ys != [] { ConcatShape(ys); }
    } else {
      ConcatShape(xs);
      var cx := Concat(xs);
      assert WithTrailingSeparator(Render(xs)) == cx + [Separator];
      if ys == [] {
        assert Render(ys) == [Separator];
      } else {
        var cy := Concat(ys);
        ConcatShape(ys);
        ConcatSeparatorPrefix(xs, ys);
        if cy == cx || cx + [Separator] <= cy {
          assert cx + [Separator] <= cy + [Separator];
        }
        if xs <= ys && xs != ys {
          assert ys == xs + ys[|xs|..];
          ConcatAppend(xs, ys[|xs|..]);
          ConcatShape(ys[|xs|..]);
          assert cy == cx + Concat(ys[|xs|..]);
          assert cx + [Separator] == cy[..|cx| + 1];
        }
      }
    }
  }

  /** Every rendering starts at the root. */
  lemma RenderAsLead(xs: seq<string>, trailing: bool)
    requires AllPieces(xs)
    ensures |RenderAs(xs, trailing)| > 0 && RenderAs(xs, trailing)[0] == Separator
  {
    if xs != [] { ConcatShape(xs); }
  }

  /** A rendered path plus a separator begins another rendering exactly for a proper segment prefix. */
  lemma StrictPrefixRender(xs: seq<string>, ys: seq<string>)
    requires xs != [] && AllPieces(xs) && AllPieces(ys)
    ensures Concat(xs) + [Separator] <= Render(ys) <==> xs <= ys && |xs| < |ys|
  {
    if Concat(xs) + [Separator] <= Render(ys) {
      PrefixRenderIsProper(xs, ys);
    }
    if xs <= ys && |xs| < |ys| {
      ProperPrefixRenders(xs, ys);
    }
  }

  lemma PrefixRenderIsProper(xs: seq<string>, ys: seq<string>)
    requires xs != [] && AllPieces(xs) && AllPieces(ys)
    requires Concat(xs) + [Separator] <= Render(ys)
    ensures xs <= ys && |xs| < |ys|
  {
    ConcatShape(xs);
    if ys != [] {
      PrefixConcatIsProper(xs, ys);
    }
  }

  lemma PrefixConcatIsProper(xs: seq<string>, ys: seq<string>)
    requires xs != [] && ys != [] && AllPieces(xs) && AllPieces(ys)
    requires Concat(xs) + [Separator] <= Concat(ys)
    ensures xs <= ys && |xs| < |ys|
  {
    PrefixConcatIsPrefix(xs, ys);
    LongerConcatIsLonger(xs, ys);
  }

  lemma LongerConcatIsLonger(xs: seq<string>, ys: seq<string>)
    requires xs <= ys && |Concat(xs)| < |Concat(ys)|
    ensures |xs| < |ys|
  {
    ConcatOfPrefix(xs, ys);
    assert ys[|xs|..] != [];
  }

  lemma PrefixConcatIsPrefix(xs: seq<string>, ys: seq<string>)
    requires xs != [] && ys != [] && AllPieces(xs) && AllPieces(ys)
    requires Concat(xs) + [Separator] <= Concat(ys)
    ensures xs <= ys && |Concat(xs)| < |Concat(ys)|
  {
    var cx, cy := Concat(xs), Concat(ys);
    var n := |cx| + 1;
    assert cx + [Separator] == cy[..n];
    assert cy[..n] == (cy + [Separator])[..n];
    ConcatSeparatorPrefix(xs, ys);
  }

  /** The rendering of a longer path continues the rendering of its prefix. */
  lemma ConcatOfPrefix(xs: seq<string>, ys: seq<string>)
    requires xs <= ys
    ensures Concat(ys) == Concat(xs) + Concat(ys[|xs|..])
  {
    assert ys == xs + ys[|xs|..];
    ConcatAppend(xs, ys[|xs|..]);
  }

  lemma ProperPrefixRenders(xs: seq<string>, ys: seq<string>)
    requires xs != [] && AllPieces(xs) && AllPieces(ys)
    requires xs <= ys && |xs| < |ys|
    ensures Concat(xs) + [Separator] <= Concat(ys)
  {
    var cx, cy := Concat(xs), Concat(ys);
    var rest := ys[|xs|..];
    ConcatOfPrefix(xs, ys);
    ConcatShape(rest);
    assert cy == cx + Concat(rest);
    assert cx + [Separator] == cy[..|cx| + 1];
  }

  /** Renderings ending in a separator and ones that do not never coincide. */
  lemma ConcatNotSeparated(xs: seq<string>, ys: seq<string>)
    requires xs != [] && ys != [] && AllPieces(xs) && AllPieces(ys)
    ensures Concat(ys) != Concat(xs) + [Separator]
  {
    ConcatShape(ys);
    assert Concat(ys)[|Concat(ys)| - 1] != Separator;
    assert (Concat(xs) + [Separator])[|Concat(xs)|] == Separator;
  }

  /** Rendering is injective on lists of pieces. */
  lemma ConcatInjective(xs: seq<string>, ys: seq<string>)
    requires xs != [] && ys != [] && AllPieces(xs) && AllPieces(ys)
    ensures Concat(xs) == Concat(ys) <==> xs == ys
  {
    ConcatSeparatorPrefix(xs, ys);
    ConcatSeparatorPrefix(ys, xs);
  }

  /**
   * The decision of `IsPathSafe` on normalised, case-folded paths that may
   * end in a separator, in terms of segments and the two trailing flags.
   */
  lemma RenderAsDecision(xs: seq<string>, ys: seq<string>, tb: bool, tp: bool)
    requires AllPieces(xs) && AllPieces(ys)
    ensures (RenderAs(ys, tp) == RenderAs(xs, tb) || WithTrailingSeparator(RenderAs(xs, tb)) <= RenderAs(ys, tp))
      <==> xs <= ys && (tb && 0 < |xs| == |ys| ==> tp)
  {
    if xs == [] {
      assert WithTrailingSeparator(RenderAs(xs, tb)) == [Separator];
      RenderAsLead(ys, tp);
    } else {
      var cx := Concat(xs);
      ConcatShape(xs);
      assert WithTrailingSeparator(RenderAs(xs, tb)) == cx + [Separator];
      StrictPrefixRender(xs, ys);
      if ys == [] {
        assert RenderAs(ys, tp) == [Separator];
      } else {
        var cy := Concat(ys);
        ConcatShape(ys);
        ConcatSeparatorPrefix(xs, ys);
        ConcatInjective(xs, ys);
        if tp {
          assert RenderAs(ys, tp) == cy + [Separator];
          if !tb {
            ConcatNotSeparated(ys, xs);
          }
        } else {
          assert RenderAs(ys, tp) == cy;
          if tb {
            ConcatNotSeparated(xs, ys);
          }
        }
      }
    }
  }

  // ---------------------------------------------------------------------
  // Normalisation is idempotent
  // ---------------------------------------------------------------------

  lemma {:induction false} PieceInJoin(xs: seq<string>, k: nat, sep: string)
    requires k < |xs|
    ensures forall c :: c in xs[k] ==> c in Join(xs, sep)
  {
    if k > 0 {
      PieceInJoin(xs[1..], k - 1, sep);
    }
  }

  lemma {:induction false} ConcatIsJoin(xs: seq<string>)
    ensures Concat(xs) == Join([""] + xs, [Separator])
  {
    if xs != [] {
      ConcatIsJoin(xs[1..]);
      assert ([""] + xs)[1..] == xs;
      assert ([""] + xs[1..])[1..] == xs[1..];
      if |xs| == 1 {
        assert Concat(xs[1..]) == "";
      } else {
        assert Join(xs, [Separator]) == xs[0] + [Separator] + Join(xs[1..], [Separator]);
        assert Join([""] + xs[1..], [Separator]) == "" + [Separator] + Join(xs[1..], [Separator]);
      }
    }
  }

  lemma StepIntoSegment(dir: Dir, x: string)
    requires IsSegment(x)
    ensures AllSegments(dir + [x]) && Step(dir, x) == dir + [x]
  {
  }

  lemma TailSegments(xs: seq<string>)
    requires xs != [] && AllSegments(xs)
    ensures IsSegment(xs[0]) && AllSegments(xs[1..])
  {
    assert forall k :: 0 <= k < |xs| - 1 ==> xs[1..][k] == xs[k + 1];
  }

  lemma {:induction false} WalkSegments(dir: Dir, xs: seq<string>)
    requires AllSegments(xs)
    ensures Walk(dir, xs) == dir + xs
    decreases |xs|
  {
    if xs != [] {
      TailSegments(xs);
      StepIntoSegment(dir, xs[0]);
      var d: Dir := dir + [xs[0]];
      WalkSegments(d, xs[1..]);
      assert d + xs[1..] == dir + xs;
    }
  }

  lemma {:induction false} NulFreeConcat(xs: seq<string>)
    requires AllSegments(xs)
    ensures '\0' !in Concat(xs)
  {
    if xs != [] {
      NulFreeConcat(xs[1..]);
    }
  }

  /** A normalised path, with or without a final separator, normalises to itself, whatever the current directory. */
  lemma GetFullPathIdempotent(cwd: Dir, xs: Dir, trailing: bool)
    ensures FullSegments(cwd, RenderAs(xs, trailing)) == Some(xs)
    ensures GetFullPath(cwd, RenderAs(xs, trailing)) == Some(RenderAs(xs, trailing))
  {
    RenderIdempotent(cwd, xs);
    if xs != [] {
      var p := Concat(xs);
      ConcatShape(xs);
      if trailing {
        FullSegmentsExtend(cwd, p, "");
        assert p + [Separator] + "" == p + [Separator];
      }
    }
  }

  lemma RenderIdempotent(cwd: Dir, xs: Dir)
    ensures FullSegments(cwd, Render(xs)) == Some(xs)
  {
    if xs == [] {
      assert Render(xs) == "" + [Separator] + "";
      SplitPrefix("", "", Separator);
      assert Split(Render(xs), Separator) == ["", ""];
      assert Walk([], ["", ""]) == Walk([], [""]) == [];
    } else {
      ConcatIsJoin(xs);
      SplitJoin([""] + xs, Separator);
      NulFreeConcat(xs);
      ConcatShape(xs);
      assert Split(Render(xs), Separator) == [""] + xs;
      WalkSegments([], xs);
      assert ([""] + xs)[1..] == xs;
      assert Walk([], [""] + xs) == Walk([], xs) == xs;
    }
  }

  /**
   * Combining then normalising resolves `b` with the directory of `a` as
   * the current directory: a rooted `b` ignores it, a relative one walks
   * from it, and the result keeps `b`'s final separator.
   */
  lemma CombineResolves(cwd: Dir, a: string, b: string)
    requires FullSegments(cwd, a).Some? && b != []
    ensures FullSegments(cwd, Combine(a, b)) == FullSegments(FullSegments(cwd, a).value, b)
    ensures EndsWithSeparator(Combine(a, b)) == EndsWithSeparator(b)
  {
    var c := Combine(a, b);
    assert c[|c| - |b|..] == b;
    assert c[|c| - 1] == b[|b| - 1];
    if !IsRooted(b) {
      if '\0' in b {
        var i :| 0 <= i < |b| && b[i] == '\0';
        assert c[|c| - |b| + i] == '\0';
      } else {
        CombineWalks(cwd, a, b);
      }
    }
  }

  /** Combining one segment onto a directory path goes one segment down. */
  lemma CombineSegment(cwd: Dir, a: string, seg: string)
    requires FullSegments(cwd, a).Some? && IsSegment(seg)
    ensures FullSegments(cwd, Combine(a, seg)) == Some(FullSegments(cwd, a).value + [seg])
  {
    var xs := FullSegments(cwd, a).value;
    CombineResolves(cwd, a, seg);
    SplitNoSep(seg, Separator);
    StepIntoSegment(xs, seg);
    assert Walk(xs, [seg]) == Walk(xs + [seg], []);
  }

  lemma CombineWalks(cwd: Dir, a: string, b: string)
    requires FullSegments(cwd, a).Some? && b != [] && !IsRooted(b) && '\0' !in b
    ensures FullSegments(cwd, Combine(a, b)) == FullSegments(FullSegments(cwd, a).value, b)
  {
    SplitPiecesNulFree(b);
    if a[|a| - 1] == Separator {
      var a' := a[..|a| - 1];
      assert a == a' + [Separator];
      JoinAfterSeparator(cwd, a', b);
    } else {
      assert Combine(a, b) == a + [Separator] + b;
      JoinWithSeparator(cwd, a, b);
    }
  }

  /** Walking the pieces of `a`, a separator, then `b` walks `b` from where `a` ends. */
  lemma JoinWithSeparator(cwd: Dir, a: string, b: string)
    requires a != [] && '\0' !in a && '\0' !in b && !IsRooted(b) && b != []
    ensures FullSegments(cwd, a).Some?
    ensures FullSegments(cwd, a + [Separator] + b) == FullSegments(FullSegments(cwd, a).value, b)
  {
    var start: Dir := if IsRooted(a) then [] else cwd;
    var c := a + [Separator] + b;
    assert c[0] == a[0];
    SplitConcat(a, b, Separator);
    SplitPiecesNulFree(a);
    SplitPiecesNulFree(b);
    WalkAppend(start, Split(a, Separator), Split(b, Separator));
  }

  /** The same when `a` already ends in the separator, `a'` being `a` without it. */
  lemma JoinAfterSeparator(cwd: Dir, a': string, b: string)
    requires '\0' !in a' && '\0' !in b && !IsRooted(b) && b != []
    ensures var a := a' + [Separator];
      FullSegments(cwd, a).Some?
      && FullSegments(cwd, Combine(a, b)) == FullSegments(FullSegments(cwd, a).value, b)
  {
    var a := a' + [Separator];
    assert Combine(a, b) == a' + [Separator] + b;
    if a' == [] {
      assert a == [Separator] && Combine(a, b) == [Separator] + b;
      RootJoin(cwd, b);
    } else {
      assert a == a' + [Separator] + "";
      FullSegmentsExtend(cwd, a', "");
      assert Step(FullSegments(cwd, a').value, "") == FullSegments(cwd, a').value;
      JoinWithSeparator(cwd, a', b);
    }
  }

  /** "/" then a relative `b` walks `b` from the root. */
  lemma RootJoin(cwd: Dir, b: string)
    requires '\0' !in b && !IsRooted(b) && b != []
    ensures FullSegments(cwd, [Separator]) == Some([])
    ensures FullSegments(cwd, [Separator] + b) == FullSegments([], b)
  {
    assert [Separator] == "" + [Separator] + "";
    SplitPrefix("", "", Separator);
    assert Split("", Separator) == [""];
    assert Walk([], ["", ""]) == [];
    assert [Separator] + b == "" + [Separator] + b;
    SplitPrefix("", b, Separator);
    SplitPiecesNulFree(b);
    assert Walk([], [""] + Split(b, Separator)) == Walk([], Split(b, Separator));
  }

  /**
   * Whatever `ResolveSafePath` returns lies inside the base: its segments
   * extend the base's (case-folded), so no ".." or absolute path escapes.
   */
  lemma ResolveSafePathStaysInside(cwd: Dir, base: string, rel: string)
    requires ResolveSafePath(cwd, base, rel).Some?
    ensures var r := ResolveSafePath(cwd, base, rel).value;
            && FullSegments(cwd, base).Some?
            && LowerSegments(FullSegments(cwd, base).value) <= LowerSegments(FullSegments(cwd, r).value)
            && GetFullPath(cwd, r) == Some(r)
  {
    var r := ResolveSafePath(cwd, base, rel).value;
    IsPathSafeIsContainment(cwd, r, base);
    var c := Combine(base, rel);
    GetFullPathIdempotent(cwd, FullSegments(cwd, c).value, EndsWithSeparator(c));
  }

  // ---------------------------------------------------------------------
  // Normalising a path built one piece at a time
  // ---------------------------------------------------------------------

  lemma {:induction false} WalkAppend(d: Dir, xs: seq<string>, ys: seq<string>)
    requires forall k :: 0 <= k < |xs| ==> Separator !in xs[k] && '\0' !in xs[k]
    requires forall k :: 0 <= k < |ys| ==> Separator !in ys[k] && '\0' !in ys[k]
    ensures Walk(d, xs + ys) == Walk(Walk(d, xs), ys)
    decreases |xs|
  {
    if xs == [] {
      assert xs + ys == ys;
    } else {
      assert (xs + ys)[0] == xs[0];
      assert (xs + ys)[1..] == xs[1..] + ys;
      WalkAppend(Step(d, xs[0]), xs[1..], ys);
    }
  }

  /** A path with one more piece normalises to one more step of the walk. */
  lemma FullSegmentsExtend(cwd: Dir, p: string, piece: string)
    requires FullSegments(cwd, p).Some?
    requires Separator !in piece && '\0' !in piece
    ensures FullSegments(cwd, p + [Separator] + piece) == Some(Step(FullSegments(cwd, p).value, piece))
  {
    var q := p + [Separator] + piece;
    SplitAppend(p, piece, Separator);
    assert q[0] == p[0];
    var pieces := Split(p, Separator);
    assert forall k :: 0 <= k < |pieces| ==> '\0' !in pieces[k] by {
      JoinSplit(p, Separator);
      forall k | 0 <= k < |pieces|
        ensures '\0' !in pieces[k]
      {
        PieceInJoin(pieces, k, [Separator]);
      }
    }
    var start: Dir := if IsRooted(p) then [] else cwd;
    WalkAppend(start, pieces, [piece]);
    assert Walk(Walk(start, pieces), [piece]) == Step(Walk(start, pieces), piece);
  }

  /** "/" followed by one segment normalises to that segment. */
  lemma FullSegmentsRooted(cwd: Dir, seg: string)
    requires IsSegment(seg)
    ensures FullSegments(cwd, [Separator] + seg) == Some([seg])
  {
    assert [Separator] + seg == "" + [Separator] + seg;
    SplitPrefix("", seg, Separator);
    SplitNoSep(seg, Separator);
    assert Split([Separator] + seg, Separator) == ["", seg];
    assert Walk([], ["", seg]) == Walk([], [seg]) == Walk([seg], []);
  }

  lemma {:induction false} SplitAppend(a: string, b: string, sep: char)
    requires sep !in b
    ensures Split(a + [sep] + b, sep) == Split(a, sep) + [b]
  {
    if a == [] {
      assert a + [sep] + b == [sep] + b;
      assert ([sep] + b)[1..] == b;
      SplitNoSep(b, sep);
    } else {
      assert (a + [sep] + b)[1..] == a[1..] + [sep] + b;
      SplitAppend(a[1..], b, sep);
    }
  }

  // ---------------------------------------------------------------------
  // Examples
  // ---------------------------------------------------------------------

  lemma BaseSegments(cwd: Dir)
    ensures FullSegments(cwd, "/base") == Some(["base"])
    ensures LowerSegments(["base"]) == ["base"]
  {
    FullSegmentsRooted(cwd, "base");
    ToLowerIdentity("base");
  }

  /** "/base2" shares the text prefix "/base" but is not inside it. */
  lemma SiblingIsNotInside(cwd: Dir)
    ensures !IsPathSafe(cwd, "/base2", "/base")
  {
    BaseSegments(cwd);
    FullSegmentsRooted(cwd, "base2");
    ToLowerIdentity("base2");
    assert LowerSegments(["base2"]) == ["base2"];
    IsPathSafeIsContainment(cwd, "/base2", "/base");
  }

  lemma UpperChildSegments(cwd: Dir)
    ensures FullSegments(cwd, "/BASE/x") == Some(["BASE", "x"])
  {
    FullSegmentsRooted(cwd, "BASE");
    FullSegmentsExtend(cwd, "/BASE", "x");
    assert "/BASE/x" == "/BASE" + [Separator] + "x";
    assert Step(["BASE"], "x") == ["BASE", "x"];
  }

  /** Case is ignored: "/BASE/x" is inside "/base". */
  lemma CaseIsIgnored(cwd: Dir)
    ensures IsPathSafe(cwd, "/BASE/x", "/base")
  {
    BaseSegments(cwd);
    UpperChildSegments(cwd);
    ToLowerIdentity("x");
    assert ToLower("BASE") == "base";
    assert LowerSegments(["BASE", "x"]) == ["base", "x"];
    IsPathSafeIsContainment(cwd, "/BASE/x", "/base");
  }

  lemma ClimbToRoot(cwd: Dir)
    ensures FullSegments(cwd, "/base/..") == Some([])
  {
    FullSegmentsRooted(cwd, "base");
    FullSegmentsExtend(cwd, "/base", "..");
    assert "/base/.." == "/base" + [Separator] + "..";
    assert Step(["base"], "..") == [];
  }

  lemma ClimbSegments(cwd: Dir)
    ensures FullSegments(cwd, "/base/../etc") == Some(["etc"])
  {
    ClimbToRoot(cwd);
    FullSegmentsExtend(cwd, "/base/..", "etc");
    assert "/base/../etc" == "/base/.." + [Separator] + "etc";
    assert Step([], "etc") == ["etc"];
  }

  lemma EtcSegments(cwd: Dir)
    ensures FullSegments(cwd, "/etc") == Some(["etc"])
    ensures GetFullPath(cwd, "/etc") == Some("/etc")
    ensures LowerSegments(["etc"]) == ["etc"]
  {
    FullSegmentsRooted(cwd, "etc");
    assert Render(["etc"]) == "/etc";
    ToLowerIdentity("etc");
  }

  /** A ".." that climbs out of the base resolves to nothing. */
  lemma DotDotEscapeIsRejected(cwd: Dir)
    ensures ResolveSafePath(cwd, "/base", "../etc") == None
  {
    var joined := Combine("/base", "../etc");
    assert joined == "/base/../etc";
    ClimbSegments(cwd);
    EtcSegments(cwd);
    assert GetFullPath(cwd, joined) == Some("/etc");
    BaseSegments(cwd);
    EtcSegments(cwd);
    IsPathSafeIsContainment(cwd, "/etc", "/base");
  }

  /** An absolute relative path outside the base resolves to nothing. */
  lemma AbsoluteEscapeIsRejected(cwd: Dir)
    ensures ResolveSafePath(cwd, "/base", "/etc") == None
  {
    BaseSegments(cwd);
    EtcSegments(cwd);
    IsPathSafeIsContainment(cwd, "/etc", "/base");
  }

  lemma DotSegments(cwd: Dir)
    ensures GetFullPath(cwd, "/base/.") == Some("/base")
  {
    FullSegmentsRooted(cwd, "base");
    FullSegmentsExtend(cwd, "/base", ".");
    assert "/base/." == "/base" + [Separator] + ".";
    assert Step(["base"], ".") == ["base"];
    assert Render(["base"]) == "/base";
  }

  /** The base directory is inside itself. */
  lemma BaseIsSafe(cwd: Dir)
    ensures IsPathSafe(cwd, "/base", "/base")
  {
    FullSegmentsRooted(cwd, "base");
    assert Render(["base"]) == "/base";
    assert GetFullPath(cwd, "/base") == Some("/base");
    assert !IsDotNetWhiteSpace("/base"[0]);
    assert !IsBlank("/base");
  }

  /**
   * With the corrected check, "." under any base that normalises resolves
   * to the base itself, written without a final separator.
   */
  lemma BaseResolvesToItself(cwd: Dir, base: string)
    requires !IsBlank(base) && FullSegments(cwd, base).Some?
    ensures ResolveSafePathTrimmed(cwd, base, ".") == Some(Render(FullSegments(cwd, base).value))
  {
    var xs := FullSegments(cwd, base).value;
    var c := Combine(base, ".");
    CombineResolves(cwd, base, ".");
    SplitNoSep(".", Separator);
    assert FullSegments(xs, ".") == Some(Walk(xs, ["."]));
    assert Walk(xs, ["."]) == Walk(xs, []) == xs;
    assert GetFullPath(cwd, c) == Some(Render(xs));
    GetFullPathIdempotent(cwd, xs, false);
    IsPathSafeTrimmedIsContainment(cwd, Render(xs), base);
    RenderAsLead(xs, false);
    assert !IsBlank(Render(xs)) by {
      assert !IsDotNetWhiteSpace(Render(xs)[0]);
    }
    assert !IsBlank(".") by {
      assert !IsDotNetWhiteSpace("."[0]);
    }
  }

  lemma BaseWithSeparatorSegments(cwd: Dir)
    ensures FullSegments(cwd, "/base/") == Some(["base"])
    ensures FullSegments(cwd, "/base/.") == Some(["base"])
  {
    FullSegmentsRooted(cwd, "base");
    FullSegmentsExtend(cwd, "/base", "");
    assert "/base/" == "/base" + [Separator] + "";
    FullSegmentsExtend(cwd, "/base", ".");
    assert "/base/." == "/base" + [Separator] + ".";
  }

  /** "/base" is not accepted under the base "/base/": it is shorter than "/base/" and not equal to it. */
  lemma BaseWithSeparatorRejectsBase(cwd: Dir)
    ensures !IsPathSafe(cwd, "/base", "/base/")
  {
    BaseWithSeparatorSegments(cwd);
    FullSegmentsRooted(cwd, "base");
    assert Render(["base"]) == "/base";
    assert GetFullPath(cwd, "/base") == Some("/base");
    assert RenderAs(["base"], true) == "/base/";
    assert GetFullPath(cwd, "/base/") == Some("/base/");
    assert WithTrailingSeparator("/base/") == "/base/";
    assert |ToLower("/base")| < |ToLower("/base/")|;
  }

  /**
   * As written, a base given with a final separator rejects itself: "."
   * under "/base/" normalises to "/base", which does not start with
   * "/base/", so the source returns null where the corrected check
   * returns the base.
   */
  lemma BaseWithSeparatorRejectsItself(cwd: Dir)
    ensures ResolveSafePath(cwd, "/base/", ".") == None
    ensures ResolveSafePathTrimmed(cwd, "/base/", ".") == Some("/base")
  {
    BaseWithSeparatorSegments(cwd);
    assert Combine("/base/", ".") == "/base/.";
    assert Render(["base"]) == "/base";
    assert GetFullPath(cwd, "/base/.") == Some("/base");
    BaseWithSeparatorRejectsBase(cwd);
    BaseWithSeparatorTrimmed(cwd);
  }

  /** With the corrected check, "." under "/base/" is the base "/base". */
  lemma BaseWithSeparatorTrimmed(cwd: Dir)
    ensures ResolveSafePathTrimmed(cwd, "/base/", ".") == Some("/base")
  {
    BaseWithSeparatorSegments(cwd);
    assert Render(["base"]) == "/base";
    assert !IsBlank("/base/") by {
      assert !IsDotNetWhiteSpace("/base/"[0]);
    }
    BaseResolvesToItself(cwd, "/base/");
  }

  /** "." names the base itself, which is allowed. */
  lemma DotIsTheBase(cwd: Dir)
    ensures ResolveSafePath(cwd, "/base", ".") == Some("/base")
  {
    assert Combine("/base", ".") == "/base/.";
    DotSegments(cwd);
    BaseIsSafe(cwd);
  }
}
