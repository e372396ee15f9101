/**
 * The streaming middleware of the AutoBot agent
 * (`ChatClientExtensions.ToolNotificationStreamingMiddleware`): every
 * update of the inner agent is passed through unchanged, and ahead of it
 * one text update is injected per function call the update carries,
 * holding a one-line readable summary of the call.
 */
module ToolNotifications {
  import opened Wrappers
  import opened Text
  import ToolFactory

  /** Call arguments: a dictionary whose values may be null, itself possibly null. */
  type Args = Option<map<string, Option<string>>>

  /** The contents of an update that matter here. */
  datatype Content =
    | FunctionCall(name: string, arguments: Args)
    | TextContent(text: string)
    | OtherContent

  /** `AgentResponseUpdate`, reduced to its contents. */
  datatype Update = Update(contents: seq<Content>)

  /** `GetArg`: the argument's text, or null when the dictionary, the key or the value is missing. */
  function GetArg(args: Args, key: string): (r: Option<string>)
    ensures r.None? <==> args.None? || key !in args.value || args.value[key].None?
    ensures r.Some? ==> args.value[key] == r
  {
    if args.None? then None
    else if key in args.value then args.value[key]
    else None
  }

  /** String interpolation of a nullable string: null prints as nothing. */
  function Interpolate(s: Option<string>): string {
    s.GetOr("")
  }

  const GenericIcon: string := "🔧 "

  /** The summary line of each known tool, by name; `None` for any other name. */
  function KnownSummary(name: string, args: Args): Option<string> {
    if name == "list_directory" then Some("📂 List directory: " + GetArg(args, "relativePath").GetOr("."))
    else if name == "read_file" then Some("📄 Read file: " + Interpolate(GetArg(args, "filePath")))
    else if name == "write_file" then Some("✏️ Write file: " + Interpolate(GetArg(args, "filePath")))
    else if name == "search_files" then Some("🔍 Search: " + Interpolate(GetArg(args, "pattern")))
    else if name == "run_command" then Some("⚡ Run: " + Interpolate(GetArg(args, "command")))
    else if name == "read_skill" then Some("📖 Read skill: " + Interpolate(GetArg(args, "skillName")))
    else None
  }

  /**
   * `FormatToolCallSummary`: the known tool's line, or the generic icon
   * and the name; never null, never empty.
   */
  function FormatToolCallSummary(name: string, args: Args): (r: string)
    ensures |r| > 0
    ensures KnownSummary(name, args).None? ==> r == GenericIcon + name
    ensures KnownSummary(name, args).Some? ==> r == KnownSummary(name, args).value && !StartsWith(r, GenericIcon)
  {
    match KnownSummary(name, args)
    case Some(s) =>
      assert s[0] != GenericIcon[0];
      s
    case None => GenericIcon + name
  }

  /** Every tool the factory creates has its own summary, never the generic one. */
  lemma FactoryToolsAreKnown(t: ToolFactory.Tool, args: Args)
    ensures KnownSummary(ToolFactory.ToolName(t), args).Some?
    ensures !StartsWith(FormatToolCallSummary(ToolFactory.ToolName(t), args), GenericIcon)
  {
  }

  /** A directory listing without a `relativePath` argument shows the current directory. */
  lemma ListDirectoryDefaultsToDot(args: Args)
    requires GetArg(args, "relativePath").None?
    ensures FormatToolCallSummary("list_directory", args) == "📂 List directory: ."
  {
  }

  /** The update injected for one call. */
  function Notice(name: string, args: Args): Update {
    Update([TextContent("\n" + FormatToolCallSummary(name, args) + "\n")])
  }

  /** The function calls among some contents, in order. */
  function Calls(cs: seq<Content>): (r: seq<Content>)
    ensures |r| <= |cs|
    ensures forall k :: 0 <= k < |r| ==> r[k].FunctionCall? && r[k] in cs
    ensures forall c :: c in cs && c.FunctionCall? ==> c in r
  {
    if cs == [] then []
    else if cs[0].FunctionCall? then [cs[0]] + Calls(cs[1..])
    else Calls(cs[1..])
  }

  /** The updates injected ahead of one update: one notice per call, in content order. */
  function Notices(u: Update): (r: seq<Update>)
    ensures |r| == |Calls(u.contents)|
    ensures forall k :: 0 <= k < |r| ==>
      r[k] == Notice(Calls(u.contents)[k].name, Calls(u.contents)[k].arguments)
  {
    var calls := Calls(u.contents);
    seq(|calls|, k requires 0 <= k < |calls| => Notice(calls[k].name, calls[k].arguments))
  }

  /** The middleware over a whole stream: each update's notices, then the update itself. */
  function Middleware(us: seq<Update>): (r: seq<Update>)
    ensures |r| == |us| + TotalCalls(us)
  {
    if us == [] then []
    else
      var rest := Middleware(us[1..]);
      Notices(us[0]) + [us[0]] + rest
  }

  /** The number of calls in a stream. */
  function TotalCalls(us: seq<Update>): nat {
    if us == [] then 0 else |Calls(us[0].contents)| + TotalCalls(us[1..])
  }

  // ---------------------------------------------------------------------
  // Properties of the stream transform
  // ---------------------------------------------------------------------

  /** The transform distributes over concatenation of streams. */
  lemma {:induction false} MiddlewareAppend(a: seq<Update>, b: seq<Update>)
    ensures Middleware(a + b) == Middleware(a) + Middleware(b)
  {
    if a == [] {
      assert a + b == b;
    } else {
      assert (a + b)[0] == a[0];
      assert (a + b)[1..] == a[1..] + b;
      MiddlewareAppend(a[1..], b);
    }
  }

  /** Where inner update `i` lands: after everything produced for the updates before it, and its own notices. */
  function Position(us: seq<Update>, i: nat): nat
    requires i < |us|
  {
    |Middleware(us[..i])| + |Calls(us[i].contents)|
  }

  /** One update at the head of a stream: its notices, itself, then the rest. */
  lemma MiddlewareCons(x: Update, b: seq<Update>)
    ensures Middleware([x] + b) == Notices(x) + [x] + Middleware(b)
  {
    var tail := [x] + b;
    assert tail[0] == x && tail[1..] == b;
  }

  /** The output splits around inner update `i`. */
  lemma {:induction false} MiddlewareAround(us: seq<Update>, i: nat)
    requires i < |us|
    ensures Middleware(us) == Middleware(us[..i]) + (Notices(us[i]) + [us[i]] + Middleware(us[i + 1..]))
  {
    var a, x, b := us[..i], us[i], us[i + 1..];
    assert us == a + ([x] + b);
    MiddlewareAppend(a, [x] + b);
    MiddlewareCons(x, b);
  }

  /**
   * Inner update `i` is yielded unchanged, preceded immediately by its
   * notices in content order.
   */
  lemma {:induction false} UpdatePassesThrough(us: seq<Update>, i: nat)
    requires i < |us|
    ensures Position(us, i) < |Middleware(us)|
    ensures Middleware(us)[Position(us, i)] == us[i]
    ensures forall k :: 0 <= k < |Notices(us[i])| ==>
      Middleware(us)[|Middleware(us[..i])| + k] == Notices(us[i])[k]
  {
    MiddlewareAround(us, i);
    WithinSplit(Middleware(us), Middleware(us[..i]), Notices(us[i]), us[i], Middleware(us[i + 1..]));
  }

  /** Indexing into a sequence laid out as `pre`, `mid`, `x`, `post`. */
  lemma WithinSplit<T>(out: seq<T>, pre: seq<T>, mid: seq<T>, x: T, post: seq<T>)
    requires out == pre + (mid + [x] + post)
    ensures |pre| + |mid| < |out| && out[|pre| + |mid|] == x
    ensures forall k :: 0 <= k < |mid| ==> out[|pre| + k] == mid[k]
  {
  }

  /** Inner updates come out in their original order. */
  lemma {:induction false} PositionsIncrease(us: seq<Update>, i: nat)
    requires i + 1 < |us|
    ensures Position(us, i) < Position(us, i + 1)
  {
    assert us[..i + 1] == us[..i] + [us[i]];
    MiddlewareAppend(us[..i], [us[i]]);
    assert [us[i]][1..] == [];
  }

  /** An update without function calls gets nothing injected ahead of it. */
  lemma NoCallsNoNotices(u: Update)
    requires forall k :: 0 <= k < |u.contents| ==> !u.contents[k].FunctionCall?
    ensures Notices(u) == []
  {
    if |Calls(u.contents)| > 0 {
      var c := Calls(u.contents)[0];
      assert c in u.contents;
    }
  }

  /** A stream without any call passes through unchanged. */
  lemma {:induction false} NoCallsUnchanged(us: seq<Update>)
    requires forall i, k :: 0 <= i < |us| && 0 <= k < |us[i].contents| ==> !us[i].contents[k].FunctionCall?
    ensures Middleware(us) == us
  {
    if us != [] {
      NoCallsNoNotices(us[0]);
      NoCallsUnchanged(us[1..]);
    }
  }
}
