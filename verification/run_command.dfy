/**
 * The `run_command` tool of AutoBot (`RunCommandTool`): a whitelist gate in
 * strict mode, a risk classification by substring and prefix patterns, an
 * optional human confirmation, then one run of the command whose output is
 * cut to a size limit. The process itself is an input: the model receives
 * what the spawned shell did (its exit code and output, a timeout, or an
 * exception) instead of running anything.
 */
module RunCommand {
  import opened Wrappers
  import opened Text
  import opened ExecutionPolicy

  const ToolName: string := "run_command"
  const NotWhitelistedError: string := "命令不在白名单中"
  const DeclinedError: string := "用户拒绝执行"
  const RejectedRisk: string := "rejected"
  const OutputTruncatedMarker: string := "\n...(输出已截断)"
  const ErrorTruncatedMarker: string := "\n...(错误输出已截断)"

  /** The options `RunCommandTool` reads; the limits default to 60 seconds and 100 KiB. */
  datatype RunOptions = RunOptions(
    policy: Policy,
    workingDirectory: string,
    commandTimeoutSeconds: int,
    maxOutputSizeBytes: nat)

  // ---------------------------------------------------------------------
  // The command's base token
  // ---------------------------------------------------------------------

  /** The non-empty pieces of a split, in order (`StringSplitOptions.RemoveEmptyEntries`). */
  function NonEmpty(xs: seq<string>): (r: seq<string>)
    ensures forall x :: x in r <==> x in xs && x != []
  {
    if xs == [] then []
    else if xs[0] == [] then NonEmpty(xs[1..])
    else [xs[0]] + NonEmpty(xs[1..])
  }

  predicate AllSpaces(s: string) {
    forall i :: 0 <= i < |s| ==> s[i] == ' '
  }

  /** A string has a non-empty space-separated piece exactly when it is not all spaces. */
  lemma {:induction false} PiecesExist(s: string)
    ensures |NonEmpty(Split(s, ' '))| > 0 <==> !AllSpaces(s)
  {
    if s != [] {
      PiecesExist(s[1..]);
      if s[0] != ' ' {
        assert Split(s, ' ')[0] != [];
      } else {
        assert Split(s, ' ') == [""] + Split(s[1..], ' ');
        assert AllSpaces(s) <==> AllSpaces(s[1..]) by {
          if AllSpaces(s[1..]) {
            forall i | 0 <= i < |s| ensures s[i] == ' ' {
              if i > 0 { assert s[i] == s[1..][i - 1]; }
            }
          }
        }
      }
    }
  }

  /** `ExtractCommandBase`: the first non-empty `' '`-separated piece, or the whole command. */
  function ExtractCommandBase(command: string): (r: string)
    ensures AllSpaces(command) ==> r == command
    ensures !AllSpaces(command) ==> r != [] && ' ' !in r
  {
    PiecesExist(command);
    var parts := NonEmpty(Split(command, ' '));
    if |parts| > 0 then
      assert parts[0] in parts;
      parts[0]
    else command
  }

  /** Leading spaces only produce empty pieces. */
  lemma {:induction false} NonEmptyAfterSpaces(lead: string, x: string)
    requires AllSpaces(lead)
    ensures NonEmpty(Split(lead + x, ' ')) == NonEmpty(Split(x, ' '))
  {
    if lead != [] {
      assert (lead + x)[1..] == lead[1..] + x;
      var pieces := Split(lead + x, ' ');
      assert pieces == [""] + Split(lead[1..] + x, ' ');
      assert pieces[0] == [] && pieces[1..] == Split(lead[1..] + x, ' ');
      NonEmptyAfterSpaces(lead[1..], x);
    } else {
      assert lead + x == x;
    }
  }

  /**
   * The base of a command written as spaces, a word, then nothing or a
   * space and anything: the word.
   */
  lemma ExtractCommandBaseOfWord(lead: string, word: string, rest: string)
    requires AllSpaces(lead)
    requires word != [] && ' ' !in word
    requires rest == [] || rest[0] == ' '
    ensures ExtractCommandBase(lead + word + rest) == word
  {
    var c := lead + word + rest;
    assert c == lead + (word + rest);
    NonEmptyAfterSpaces(lead, word + rest);
    if rest == [] {
      assert word + rest == word;
      SplitNoSep(word, ' ');
    } else {
      assert word + rest == word + [' '] + rest[1..];
      SplitPrefix(word, rest[1..], ' ');
    }
  }

  /** `AllowedCommands.Contains(base, StringComparer.OrdinalIgnoreCase)`. */
  predicate Whitelisted(allowed: seq<string>, base: string) {
    exists i :: 0 <= i < |allowed| && EqualsIgnoreCase(allowed[i], base)
  }

  /** Strict mode refuses the command: a whitelist is set and the base is not on it. */
  predicate WhitelistRejects(p: Policy, command: string) {
    |p.allowedCommands| > 0 && !Whitelisted(p.allowedCommands, ExtractCommandBase(command))
  }

  // ---------------------------------------------------------------------
  // Risk classification
  // ---------------------------------------------------------------------

  /** Some risky pattern, folded, occurs in the folded command. */
  predicate RiskyMatch(lower: string, patterns: seq<string>) {
    exists i :: 0 <= i < |patterns| && Contains(lower, ToLower(patterns[i]))
  }

  /** The folded command starts with some folded safe pattern. */
  predicate SafeMatch(lower: string, patterns: seq<string>) {
    exists i :: 0 <= i < |patterns| && StartsWith(lower, ToLower(patterns[i]))
  }

  /** The first `foreach` of `AssessRiskLevel`: does any risky pattern occur? */
  function ScanRisky(lower: string, patterns: seq<string>): (b: bool)
    ensures b <==> RiskyMatch(lower, patterns)
  {
    if patterns == [] then false
    else if Contains(lower, ToLower(patterns[0])) then true
    else
      var b := ScanRisky(lower, patterns[1..]);
      assert forall i :: 1 <= i < |patterns| ==> patterns[i] == patterns[1..][i - 1];
      b
  }

  /** The second `foreach` of `AssessRiskLevel`: does the command start with a safe pattern? */
  function ScanSafe(lower: string, patterns: seq<string>): (b: bool)
    ensures b <==> SafeMatch(lower, patterns)
  {
    if patterns == [] then false
    else if StartsWith(lower, ToLower(patterns[0])) then true
    else
      var b := ScanSafe(lower, patterns[1..]);
      assert forall i :: 1 <= i < |patterns| ==> patterns[i] == patterns[1..][i - 1];
      b
  }

  /**
   * `AssessRiskLevel`: Critical when a risky pattern occurs anywhere, else
   * Safe when a safe pattern is a prefix, else Medium; never High.
   */
  function AssessRiskLevel(command: string, p: Policy): (r: RiskLevel)
    ensures r != High
    ensures r == Critical <==> RiskyMatch(ToLower(command), p.riskyCommandPatterns)
    ensures r == Safe <==>
      !RiskyMatch(ToLower(command), p.riskyCommandPatterns) && SafeMatch(ToLower(command), p.safeCommandPatterns)
  {
    var lower := ToLower(command);
    if ScanRisky(lower, p.riskyCommandPatterns) then Critical
    else if ScanSafe(lower, p.safeCommandPatterns) then Safe
    else Medium
  }

  /** `ShouldAutoApprove`: only a Safe command, and only when the policy says so. */
  function ShouldAutoApprove(risk: RiskLevel, p: Policy): (b: bool)
    ensures b ==> risk == Safe
    ensures risk == Safe ==> (b <==> p.autoApproveSafeCommands)
  {
    match risk
    case Safe => p.autoApproveSafeCommands
    case _ => false
  }

  /** `GetRiskAssessment`: the description shown with each level. */
  function RiskAssessment(risk: RiskLevel): string {
    match risk
    case Safe => "安全操作，无风险"
    case Medium => "中等风险，可能修改系统状态"
    case High => "高风险操作，可能造成数据丢失"
    case Critical => "极高风险，可能造成不可逆损害"
  }

  // ---------------------------------------------------------------------
  // Running the command
  // ---------------------------------------------------------------------

  /** What the spawned shell did. */
  datatype ProcessOutcome =
    | Exited(exitCode: int, stdout: string, stderr: string)
    | TimedOut(stdout: string)
    | Threw(message: string)

  /** `CommandResult`. */
  datatype CommandResult = CommandResult(exitCode: int, output: string, error: string)

  /** Output longer than the limit is cut to the limit and marked. */
  function Truncate(s: string, limit: nat, marker: string): (r: string)
    ensures |s| <= limit ==> r == s
    ensures |s| > limit ==> |r| == limit + |marker| && r[..limit] == s[..limit] && r[limit..] == marker
  {
    if |s| > limit then s[..limit] + marker else s
  }

  function TimeoutMessage(seconds: int): string {
    "命令执行超时（" + IntToString(seconds) + " 秒）"
  }

  /**
   * `ExecuteCommandInternal`: a timeout reports exit code -1 and the
   * output gathered so far, uncut; a normal exit reports its code and both
   * streams cut to the limit; an exception escapes as `None`.
   */
  function ExecuteCommandInternal(proc: ProcessOutcome, opts: RunOptions): (r: Option<CommandResult>)
    ensures r.None? <==> proc.Threw?
    ensures proc.TimedOut? ==> r.value.exitCode == -1 && r.value.output == proc.stdout
    ensures proc.Exited? ==> r.value.exitCode == proc.exitCode
    ensures proc.Exited? ==> |r.value.output| <= opts.maxOutputSizeBytes + |OutputTruncatedMarker|
    ensures proc.Exited? ==> |r.value.error| <= opts.maxOutputSizeBytes + |ErrorTruncatedMarker|
    ensures proc.Exited? && |proc.stdout| <= opts.maxOutputSizeBytes ==> r.value.output == proc.stdout
    ensures proc.Exited? && |proc.stderr| <= opts.maxOutputSizeBytes ==> r.value.error == proc.stderr
  {
    match proc
    case Threw(_) => None
    case TimedOut(out) => Some(CommandResult(-1, out, TimeoutMessage(opts.commandTimeoutSeconds)))
    case Exited(code, out, err) =>
      Some(CommandResult(code,
        Truncate(out, opts.maxOutputSizeBytes, OutputTruncatedMarker),
        Truncate(err, opts.maxOutputSizeBytes, ErrorTruncatedMarker)))
  }

  /** The JSON object `ExecuteAsync` returns, one constructor per shape. */
  datatype ToolResult =
    | NotWhitelisted(command: string, allowedCommands: seq<string>)
    | Declined(command: string, risk: RiskLevel)
    | Completed(command: string, exitCode: int, output: string, error: string,
                risk: RiskLevel, assessment: string)
    | Failed(command: string, message: string)

  /** The `success` field. */
  function Success(r: ToolResult): bool {
    r.Completed? && r.exitCode == 0
  }

  /** The `risk_level` field, absent from the exception shape. */
  function RiskField(r: ToolResult): Option<string> {
    match r
    case NotWhitelisted(_, _) => Some(RejectedRisk)
    case Declined(_, risk) => Some(RiskName(risk))
    case Completed(_, _, _, _, risk, _) => Some(RiskName(risk))
    case Failed(_, _) => None
  }

  /** The `error` field. */
  function ErrorField(r: ToolResult): string {
    match r
    case NotWhitelisted(_, _) => NotWhitelistedError
    case Declined(_, _) => DeclinedError
    case Completed(_, _, _, err, _, _) => err
    case Failed(_, msg) => msg
  }

  /** The command line and directory handed to the shell. */
  datatype Invocation = Invocation(command: string, workingDirectory: string)

  /** The result together with the tool's effects: the confirmation asked and the command run. */
  datatype Response = Response(result: ToolResult, asked: Option<ConfirmRequest>, ran: Option<Invocation>)

  /** The confirmation request for a command. */
  function ConfirmationFor(command: string, risk: RiskLevel): ConfirmRequest {
    ConfirmRequest(ToolName, "执行命令: " + command, risk)
  }

  /** The tool runs the command after the whitelist and confirmation gates let it through. */
  function Run(opts: RunOptions, command: string, risk: RiskLevel, workingDirectory: Option<string>,
               proc: ProcessOutcome, asked: Option<ConfirmRequest>): Response
  {
    var inv := Invocation(command, workingDirectory.GetOr(opts.workingDirectory));
    match ExecuteCommandInternal(proc, opts)
    case None => Response(Failed(command, proc.message), asked, Some(inv))
    case Some(res) =>
      Response(Completed(command, res.exitCode, res.output, res.error, risk, RiskAssessment(risk)), asked, Some(inv))
  }

  /**
   * `ExecuteAsync`: the whitelist gate, the risk assessment, the optional
   * confirmation, then the run.
   */
  function Execute(opts: RunOptions, command: string, workingDirectory: Option<string>,
                   proc: ProcessOutcome): (r: Response)
    ensures r.result.NotWhitelisted? <==> WhitelistRejects(opts.policy, command)
    ensures r.result.NotWhitelisted? ==>
      r.asked.None? && r.ran.None? && r.result.allowedCommands == opts.policy.allowedCommands
    ensures r.asked.Some? <==>
      !WhitelistRejects(opts.policy, command) && opts.policy.humanConfirmation.Some? &&
      !ShouldAutoApprove(AssessRiskLevel(command, opts.policy), opts.policy)
    ensures r.asked.Some? ==> r.asked.value == ConfirmationFor(command, AssessRiskLevel(command, opts.policy))
    ensures r.result.Declined? <==> r.asked.Some? && !opts.policy.humanConfirmation.value(r.asked.value)
    ensures r.ran.Some? <==> !r.result.NotWhitelisted? && !r.result.Declined?
    ensures r.ran.Some? ==> r.ran.value == Invocation(command, workingDirectory.GetOr(opts.workingDirectory))
    ensures r.result.command == command
    ensures Success(r.result) <==> r.ran.Some? && proc.Exited? && proc.exitCode == 0
    ensures r.result.Completed? || r.result.Declined? ==> r.result.risk == AssessRiskLevel(command, opts.policy)
    ensures RiskField(r.result) != Some("High")
    ensures r.result.Completed? ==>
      && r.ran.Some?
      && ExecuteCommandInternal(proc, opts) == Some(CommandResult(r.result.exitCode, r.result.output, r.result.error))
      && r.result.assessment == RiskAssessment(r.result.risk)
    ensures r.result.Failed? <==> r.ran.Some? && proc.Threw?
    ensures r.result.Failed? ==> r.result.message == proc.message
  {
    var p := opts.policy;
    if WhitelistRejects(p, command) then
      Response(NotWhitelisted(command, p.allowedCommands), None, None)
    else
      var risk := AssessRiskLevel(command, p);
      if p.humanConfirmation.Some? && !ShouldAutoApprove(risk, p) then
        var req := ConfirmationFor(command, risk);
        if !p.humanConfirmation.value(req) then
          Response(Declined(command, risk), Some(req), None)
        else
          Run(opts, command, risk, workingDirectory, proc, Some(req))
      else
        Run(opts, command, risk, workingDirectory, proc, None)
  }

  // ---------------------------------------------------------------------
  // Consequences
  // ---------------------------------------------------------------------

  /** A command that timed out never reports success, whatever it printed. */
  lemma TimeoutIsFailure(opts: RunOptions, command: string, wd: Option<string>, out: string)
    ensures !Success(Execute(opts, command, wd, TimedOut(out)).result)
    ensures Execute(opts, command, wd, TimedOut(out)).result.Completed? ==>
      Execute(opts, command, wd, TimedOut(out)).result.exitCode == -1
  {
  }

  /**
   * Under the default policy nothing is refused by the whitelist and no
   * confirmation is requested: every command runs.
   */
  lemma DefaultPolicyRunsEverything(opts: RunOptions, command: string, wd: Option<string>, proc: ProcessOutcome)
    requires opts.policy == DefaultPolicy()
    ensures Execute(opts, command, wd, proc).asked.None?
    ensures Execute(opts, command, wd, proc).ran.Some?
  {
  }

  /** A Safe command under auto-approval is never put to the handler. */
  lemma SafeCommandIsNotConfirmed(opts: RunOptions, command: string, wd: Option<string>, proc: ProcessOutcome)
    requires opts.policy.autoApproveSafeCommands
    requires AssessRiskLevel(command, opts.policy) == Safe
    ensures Execute(opts, command, wd, proc).asked.None?
  {
  }

  /** A risky pattern anywhere makes the command Critical, even behind a safe prefix. */
  lemma ChainedRmIsCritical()
    ensures AssessRiskLevel("cat a; rm -rf b", DefaultPolicy()) == Critical
  {
    var c := "cat a; rm -rf b";
    ToLowerIdentity(c);
    ToLowerIdentity("rm -rf");
    assert OccursAt(c, "rm -rf", 7);
    assert DefaultPolicy().riskyCommandPatterns[0] == "rm -rf";
  }

  /** Substring matching classifies an option named `--format` as the `format` command. */
  lemma FormatOptionIsCritical()
    ensures AssessRiskLevel("git log --format=x", DefaultPolicy()) == Critical
  {
    var c := "git log --format=x";
    ToLowerIdentity(c);
    ToLowerIdentity("format");
    assert OccursAt(c, "format", 10);
    assert DefaultPolicy().riskyCommandPatterns[1] == "format";
  }

  /** Matching ignores case. */
  lemma UpperCaseRmIsCritical()
    ensures AssessRiskLevel("RM -RF /", DefaultPolicy()) == Critical
  {
    var c := "RM -RF /";
    assert ToLower(c) == "rm -rf /";
    ToLowerIdentity("rm -rf");
    assert OccursAt(ToLower(c), "rm -rf", 0);
    assert DefaultPolicy().riskyCommandPatterns[0] == "rm -rf";
  }

  /** A pattern longer than the text cannot occur in it. */
  lemma LongerNotContained(s: string, pat: string)
    requires |pat| > |s|
    ensures !Contains(s, pat)
  {
  }

  /** A pattern as long as the text occurs in it only as the whole text. */
  lemma SameLengthContained(s: string, pat: string)
    requires |pat| == |s|
    ensures Contains(s, pat) <==> s == pat
  {
    if Contains(s, pat) {
      var i :| 0 <= i <= |s| && OccursAt(s, pat, i);
      assert i == 0;
      assert s[0..|s|] == s;
    } else {
      assert !OccursAt(s, pat, 0);
      assert s[0..|s|] == s;
    }
  }

  /** A listing command with no risky pattern in it is Safe. */
  lemma ListingIsSafe()
    ensures AssessRiskLevel("ls -la", DefaultPolicy()) == Safe
  {
    var c := "ls -la";
    ToLowerIdentity(c);
    var risky := DefaultPolicy().riskyCommandPatterns;
    forall i | 0 <= i < |risky|
      ensures !Contains(c, ToLower(risky[i]))
    {
      ToLowerIdentity(risky[i]);
      if |risky[i]| > |c| {
        LongerNotContained(c, risky[i]);
      } else {
        SameLengthContained(c, risky[i]);
      }
    }
    ToLowerIdentity("ls");
    assert StartsWith(c, "ls");
    assert DefaultPolicy().safeCommandPatterns[0] == "ls";
  }
}
