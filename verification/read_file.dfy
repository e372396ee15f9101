/**
 * The `read_file` tool of AutoBot (`ReadFileTool`): resolve the path
 * inside the working directory, check that the file exists and is not too
 * large, read it, and optionally cut out a window of lines. The file system
 * is an input: a function from resolved paths to what lies there.
 */
module ReadFile {
  import opened Wrappers
  import opened Text
  import opened PathSecurity

  const MinInt32: int := -0x8000_0000
  const MaxInt32: int := 0x7fff_ffff

  /** A C# `int`. */
  type Int32 = x: int | MinInt32 <= x <= MaxInt32

  /** Unchecked 32-bit arithmetic: the result wrapped into the `int` range. */
  function Wrap32(x: int): (r: Int32)
    ensures MinInt32 <= x <= MaxInt32 ==> r == x
    ensures (r - x) % 0x1_0000_0000 == 0
  {
    (x - MinInt32) % 0x1_0000_0000 + MinInt32
  }

  const PathRejectedError: string := "路径遍历尝试被拒绝"
  const NotFoundError: string := "文件不存在"

  // ---------------------------------------------------------------------
  // The line window
  // ---------------------------------------------------------------------

  /** `Enumerable.Skip`: a non-positive count skips nothing. */
  function Skip<T>(xs: seq<T>, n: int): (r: seq<T>)
    ensures n <= 0 ==> r == xs
    ensures 0 <= n <= |xs| ==> r == xs[n..]
    ensures n >= |xs| ==> r == []
  {
    if n <= 0 then xs else if n >= |xs| then [] else xs[n..]
  }

  /** `Enumerable.Take`: a non-positive count takes nothing. */
  function Take<T>(xs: seq<T>, n: int): (r: seq<T>)
    ensures n <= 0 ==> r == []
    ensures 0 <= n <= |xs| ==> r == xs[..n]
    ensures n >= |xs| ==> r == xs
  {
    if n <= 0 then [] else if n >= |xs| then xs else xs[..n]
  }

  /** `Math.Max(0, (offset ?? 1) - 1)`, with the subtraction wrapping as C# does by default. */
  function StartLine(offset: Option<Int32>): (r: Int32)
    ensures r >= 0
    ensures offset.None? ==> r == 0
    ensures offset.Some? && offset.value >= 1 ==> r == offset.value - 1
    ensures offset.Some? && MinInt32 < offset.value <= 1 ==> r == 0
    ensures offset == Some(MinInt32) ==> r == MaxInt32
  {
    var o: Int32 := offset.GetOr(1);
    var s := Wrap32(o - 1);
    if s < 0 then 0 else s
  }

  /** The number of lines to take: `limit ?? (lines.Length - startLine)`. */
  function LineCount(lineTotal: nat, start: Int32, limit: Option<Int32>): int {
    if limit.Some? then limit.value else lineTotal - start
  }

  /** The lower end of the window cut from `total` lines. */
  function WindowStart(total: nat, start: int): (lo: nat)
    ensures lo <= total
  {
    if start <= 0 then 0 else if start >= total then total else start
  }

  /** The upper end of the window: `count` more lines, clamped. */
  function WindowEnd(total: nat, start: int, count: int): (hi: nat)
    ensures WindowStart(total, start) <= hi <= total
  {
    var lo := WindowStart(total, start);
    if count <= 0 then lo else if lo + count >= total then total else lo + count
  }

  /** `Skip` then `Take` cuts out the clamped window. */
  lemma TakeSkipWindow<T>(xs: seq<T>, start: int, count: int)
    ensures Take(Skip(xs, start), count) == xs[WindowStart(|xs|, start)..WindowEnd(|xs|, start, count)]
  {
    var lo := WindowStart(|xs|, start);
    var rest := Skip(xs, start);
    assert rest == xs[lo..];
    if 0 < count < |rest| {
      assert rest[..count] == xs[lo..lo + count];
    }
  }

  /**
   * The offset/limit step: with neither given the text is unchanged;
   * otherwise the result is the `'\n'`-join of the lines in the clamped
   * window `[lo, hi)`.
   */
  function SliceLines(content: string, offset: Option<Int32>, limit: Option<Int32>): (r: string)
    ensures offset.None? && limit.None? ==> r == content
    ensures offset.Some? || limit.Some? ==>
      var lines := Split(content, '\n');
      var start := StartLine(offset);
      r == Join(lines[WindowStart(|lines|, start)..WindowEnd(|lines|, start, LineCount(|lines|, start, limit))], "\n")
  {
    if offset.None? && limit.None? then content
    else
      var lines := Split(content, '\n');
      var start := StartLine(offset);
      var count := LineCount(|lines|, start, limit);
      TakeSkipWindow(lines, start, count);
      Join(Take(Skip(lines, start), count), "\n")
  }

  /** Reading from the first line with no limit gives back the whole text. */
  lemma FromFirstLineIsWhole(content: string, offset: Option<Int32>)
    requires offset.Some? && MinInt32 < offset.value <= 1
    ensures SliceLines(content, offset, None) == content
  {
    var lines := Split(content, '\n');
    assert lines[0..|lines|] == lines;
    JoinSplit(content, '\n');
  }

  /**
   * The lines of a non-empty result are exactly the window's lines; a
   * positive limit bounds their number.
   */
  lemma SliceLinesAreWindow(content: string, offset: Option<Int32>, limit: Option<Int32>)
    requires offset.Some? || limit.Some?
    ensures
      var lines := Split(content, '\n');
      var start := StartLine(offset);
      var lo := WindowStart(|lines|, start);
      var hi := WindowEnd(|lines|, start, LineCount(|lines|, start, limit));
      lo < hi ==> Split(SliceLines(content, offset, limit), '\n') == lines[lo..hi]
    ensures limit.Some? && limit.value >= 1 ==> |Split(SliceLines(content, offset, limit), '\n')| <= limit.value
  {
    var lines := Split(content, '\n');
    var start := StartLine(offset);
    var lo := WindowStart(|lines|, start);
    var hi := WindowEnd(|lines|, start, LineCount(|lines|, start, limit));
    var w := lines[lo..hi];
    if lo < hi {
      assert forall k :: 0 <= k < |w| ==> w[k] == lines[lo + k];
      SplitJoin(w, '\n');
    } else {
      assert w == [];
      assert SliceLines(content, offset, limit) == "";
    }
  }

  /** An offset past the last line, or a limit below one, leaves nothing. */
  lemma EmptyWindow(content: string, offset: Option<Int32>, limit: Option<Int32>)
    requires offset.Some? || limit.Some?
    requires StartLine(offset) >= |Split(content, '\n')| || (limit.Some? && limit.value <= 0)
    ensures SliceLines(content, offset, limit) == ""
  {
  }

  /**
   * The one offset for which the wrap-around matters: `int.MinValue - 1`
   * wraps to `int.MaxValue`, so the window starts past every line and a
   * non-empty file reads as empty, while every other offset below one
   * reads from the first line.
   */
  lemma MinValueOffsetReadsNothing()
    ensures SliceLines("a", Some(MinInt32), None) == ""
    ensures SliceLines("a", Some(0), None) == "a"
  {
    FromFirstLineIsWhole("a", Some(0));
  }

  /** The start line with an ordinary saturating lower clamp and no wrap-around. */
  function StartLineClamped(offset: Option<Int32>): (r: nat)
    ensures offset.Some? && offset.value >= 1 ==> r == offset.value - 1
    ensures offset.None? || offset.value <= 1 ==> r == 0
  {
    var o: int := offset.GetOr(1);
    if o <= 1 then 0 else o - 1
  }

  /** The window with the clamped start line. */
  function SliceLinesClamped(content: string, offset: Option<Int32>, limit: Option<Int32>): (r: string)
    ensures offset.None? && limit.None? ==> r == content
    ensures offset.Some? || limit.Some? ==>
      var lines := Split(content, '\n');
      var start := StartLineClamped(offset);
      var count := if limit.Some? then limit.value else |lines| - start;
      r == Join(lines[WindowStart(|lines|, start)..WindowEnd(|lines|, start, count)], "\n")
  {
    if offset.None? && limit.None? then content
    else
      var lines := Split(content, '\n');
      var start := StartLineClamped(offset);
      var count := if limit.Some? then limit.value else |lines| - start;
      TakeSkipWindow(lines, start, count);
      Join(Take(Skip(lines, start), count), "\n")
  }

  /** With the clamp, every offset up to one reads the whole text. */
  lemma ClampedFromFirstLineIsWhole(content: string, offset: Option<Int32>)
    requires offset.Some? && offset.value <= 1
    ensures SliceLinesClamped(content, offset, None) == content
  {
    var lines := Split(content, '\n');
    assert lines[0..|lines|] == lines;
    JoinSplit(content, '\n');
  }

  /** The clamped window agrees with the wrapping one everywhere but at `int.MinValue`. */
  lemma ClampedAgrees(content: string, offset: Option<Int32>, limit: Option<Int32>)
    requires offset != Some(MinInt32)
    ensures SliceLinesClamped(content, offset, limit) == SliceLines(content, offset, limit)
  {
    StartLinesAgree(offset);
  }

  /** Away from `int.MinValue`, subtracting one never wraps, so both start lines agree. */
  lemma StartLinesAgree(offset: Option<Int32>)
    requires offset != Some(MinInt32)
    ensures StartLineClamped(offset) == StartLine(offset)
  {
  }

  // ---------------------------------------------------------------------
  // The tool
  // ---------------------------------------------------------------------

  /** What lies at a resolved path. */
  datatype FileEntry =
    | Missing
    | Present(sizeBytes: nat, text: string)
    | Unreadable(sizeBytes: nat, message: string)

  /** The options the tool reads. */
  datatype ReadOptions = ReadOptions(cwd: Dir, workingDirectory: string, maxFileSizeBytes: Int32)

  /** The JSON object `ExecuteAsync` returns, one constructor per shape. */
  datatype ReadResult =
    | PathRejected(filePath: string)
    | NotFound(filePath: string)
    | TooLarge(filePath: string, sizeBytes: nat, maxFileSizeBytes: Int32)
    | Read(filePath: string, sizeBytes: nat, content: string)
    | Failed(filePath: string, message: string)

  function Success(r: ReadResult): bool {
    r.Read?
  }

  function TooLargeMessage(size: nat, limit: Int32): string {
    "文件大小 (" + NatToString(size) + " 字节) 超过限制 (" + IntToString(limit) + " 字节)"
  }

  /** The `error` field of a failure. */
  function ErrorField(r: ReadResult): Option<string> {
    match r
    case PathRejected(_) => Some(PathRejectedError)
    case NotFound(_) => Some(NotFoundError)
    case TooLarge(_, size, limit) => Some(TooLargeMessage(size, limit))
    case Read(_, _, _) => None
    case Failed(_, msg) => Some(msg)
  }

  /**
   * `ExecuteAsync`: the traversal check, then existence, then size, then
   * the read and the line window.
   */
  function ReadFileTool(opts: ReadOptions, filePath: string, offset: Option<Int32>, limit: Option<Int32>,
                        fs: string -> FileEntry): (r: ReadResult)
    ensures r.filePath == filePath
    ensures r.PathRejected? <==> ResolveSafePath(opts.cwd, opts.workingDirectory, filePath).None?
    ensures r.NotFound? <==>
      var p := ResolveSafePath(opts.cwd, opts.workingDirectory, filePath);
      p.Some? && fs(p.value).Missing?
    ensures r.TooLarge? <==>
      var p := ResolveSafePath(opts.cwd, opts.workingDirectory, filePath);
      p.Some? && !fs(p.value).Missing? && fs(p.value).sizeBytes > opts.maxFileSizeBytes
    ensures r.Read? <==>
      var p := ResolveSafePath(opts.cwd, opts.workingDirectory, filePath);
      p.Some? && fs(p.value).Present? && fs(p.value).sizeBytes <= opts.maxFileSizeBytes
    ensures r.Read? ==>
      var p := ResolveSafePath(opts.cwd, opts.workingDirectory, filePath);
      && p.Some? && IsPathSafe(opts.cwd, p.value, opts.workingDirectory)
      && r.sizeBytes == fs(p.value).sizeBytes
      && r.content == SliceLines(fs(p.value).text, offset, limit)
    ensures r.Failed? <==>
      var p := ResolveSafePath(opts.cwd, opts.workingDirectory, filePath);
      p.Some? && fs(p.value).Unreadable? && fs(p.value).sizeBytes <= opts.maxFileSizeBytes
    ensures r.Failed? ==>
      r.message == fs(ResolveSafePath(opts.cwd, opts.workingDirectory, filePath).value).message
  {
    match ResolveSafePath(opts.cwd, opts.workingDirectory, filePath)
    case None => PathRejected(filePath)
    case Some(safePath) =>
      match fs(safePath)
      case Missing => NotFound(filePath)
      case Present(size, text) =>
        if size > opts.maxFileSizeBytes then TooLarge(filePath, size, opts.maxFileSizeBytes)
        else Read(filePath, size, SliceLines(text, offset, limit))
      case Unreadable(size, msg) =>
        if size > opts.maxFileSizeBytes then TooLarge(filePath, size, opts.maxFileSizeBytes)
        else Failed(filePath, msg)
  }

  /** A path that escapes the working directory is refused whatever the file system holds. */
  lemma RejectionComesFirst(opts: ReadOptions, filePath: string, offset: Option<Int32>, limit: Option<Int32>,
                            fs1: string -> FileEntry, fs2: string -> FileEntry)
    requires ResolveSafePath(opts.cwd, opts.workingDirectory, filePath).None?
    ensures ReadFileTool(opts, filePath, offset, limit, fs1) == ReadFileTool(opts, filePath, offset, limit, fs2)
  {
  }

  /** A file of exactly the size limit is read. */
  lemma SizeLimitIsInclusive(opts: ReadOptions, filePath: string, text: string, fs: string -> FileEntry)
    requires opts.maxFileSizeBytes >= 0
    requires ResolveSafePath(opts.cwd, opts.workingDirectory, filePath).Some?
    requires fs(ResolveSafePath(opts.cwd, opts.workingDirectory, filePath).value) == Present(opts.maxFileSizeBytes, text)
    ensures ReadFileTool(opts, filePath, None, None, fs) == Read(filePath, opts.maxFileSizeBytes, text)
  {
  }
}
