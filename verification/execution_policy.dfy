/**
 * The command execution policy of AutoBot (`ExecutionPolicyOptions`,
 * `RiskLevel`, `IHumanConfirmation`): a whitelist, the patterns that feed
 * the risk classification, the approval flags and an optional human
 * confirmation handler.
 */
module ExecutionPolicy {
  import opened Wrappers

  /** `RiskLevel`, in increasing order of danger. */
  datatype RiskLevel = Safe | Medium | High | Critical

  /** `RiskLevel.ToString()`: the member's name. */
  function RiskName(r: RiskLevel): string {
    match r
    case Safe => "Safe"
    case Medium => "Medium"
    case High => "High"
    case Critical => "Critical"
  }

  /** The arguments of `IHumanConfirmation.ConfirmAsync`. */
  datatype ConfirmRequest = ConfirmRequest(toolName: string, description: string, risk: RiskLevel)

  /** A confirmation handler, reduced to the answer it gives to each request. */
  type Confirmer = ConfirmRequest -> bool

  /** `ExecutionPolicyOptions`. */
  datatype Policy = Policy(
    allowedCommands: seq<string>,
    riskyCommandPatterns: seq<string>,
    safeCommandPatterns: seq<string>,
    autoApproveReadOperations: bool,
    autoApproveSafeCommands: bool,
    humanConfirmation: Option<Confirmer>)

  const DefaultRiskyPatterns: seq<string> := ["rm -rf", "format", "shutdown", "reboot", "del /f", "rmdir /s"]
  const DefaultSafePatterns: seq<string> := ["ls", "dir", "echo", "cat", "type", "pwd", "cd", "git status"]

  /** A freshly constructed `ExecutionPolicyOptions`. */
  function DefaultPolicy(): (p: Policy)
    ensures p.allowedCommands == []
    ensures p.humanConfirmation.None?
    ensures p.autoApproveReadOperations && p.autoApproveSafeCommands
    ensures |p.riskyCommandPatterns| == 6 && |p.safeCommandPatterns| == 8
  {
    Policy([], DefaultRiskyPatterns, DefaultSafePatterns, true, true, None)
  }
}
