# Agent demos: skill sandbox, chat reducers and workflow executors

This project models the deterministic core of a collection of .NET and
TypeScript agent demos, and proves properties of it.

**AutoBot skill and sandbox engine**
- Path containment and safe path resolution: `PathSecurity`.
- Skill name, description and file checks: `SkillValidator`.
- Allowed-tool globs: `AllowedTools`.
- Skill metadata: `Skills`.
- The project-over-user skill catalogue: `Catalog`.
- The skills section of the system prompt: `PromptTemplates`.
- The `run_command` tool: whitelist gate, risk classification, confirmation gate and output truncation (`ExecutionPolicy`, `RunCommand`).
- The `read_file` tool: check order, size limit and line window (`ReadFile`).
- The enabled-tool list: `ToolFactory`.
- The streaming middleware that puts a one-line summary ahead of every function call: `ToolNotifications`.

**Travel planner client:** skill-id sanitizing and the one-tool-per-skill bridge (`AgentFunctions`).

**Web chat client:** the `useChat` hook's message-list updaters and its send, settle, abort and clear transitions (`ChatState`).

**Workflow executors**, each a pure state-transition function that returns the new state and the effects it emits:
- the number-guessing judge (`Judge`);
- the checkpointing step (`StepExecutor`);
- the slogan feedback step (`Feedback`);
- the text reverser (`ReverseText`);
- the in-memory chat history provider (`ChatHistory`).

**Shared modules:** `Wrappers` (`Option`) and `Text` (string helpers).
- White space: .NET and JavaScript definitions.
- ASCII case folding.
- `Split` and `Join`, with their round trips.
- `Trim`.
- Decimal rendering of integers.

**Modelling choices**
- Strings are Dafny strings of Unicode scalar values. Where .NET compares `Length` against a limit, the model counts UTF-16 code units with `Text.Utf16Length`: one per character of the Basic Multilingual Plane, two for any other. `ReverseText` works on the code units themselves.
- Case-insensitive comparison is ASCII folding.
- `Path.GetFullPath` is a normaliser over `/`-separated segments from a current-directory parameter. As on Unix, it keeps a final separator: "/base/" stays "/base/", while "/base/." becomes "/base".
- Nullable values are `Option`.
- The file system, processes, clocks, GUIDs and model replies are parameters of the functions that use them.

Where the code and its documentation disagree, the model follows the code:
- The risky-pattern comment says matches are rated High or Critical. The code only ever produces Critical, and `RunCommand.AssessRiskLevel` proves High never occurs.
- The checkpoint workflow starts its three-step chain on the text `Checkpoint Workflow`. `StepExecutor.ThreeSteps` holds for any start text, that one included.
- The prompt generator reads `state.Skills`, which `SkillsState` does not define. It is read as `AllSkills`.
- `run_command` reads its limits from option fields that `AutoBotOptions` does not have. They are plain parameters.

## Model

| member | source | states |
|---|---|---|
| PathSecurity.IsPathSafeIsContainment | AgentSkills/AutoBot/AutoBot/SkillEngine/PathSecurity.cs:17-50 | a path is safe iff neither argument is blank, both normalise, the base's segments are a case-insensitive segment prefix of the path's, and, when the base ends in a separator and names a directory below the root, a path with the same segments also ends in one; so a sibling such as /base2 is never inside |
| PathSecurity.SiblingIsNotInside | AgentSkills/AutoBot/AutoBot/SkillEngine/PathSecurity.cs:36-43 | /base2 is not inside /base: the separator appended to the base prevents a textual-prefix match |
| PathSecurity.CaseIsIgnored | AgentSkills/AutoBot/AutoBot/SkillEngine/PathSecurity.cs:31-43 | /BASE/x is inside /base because both comparisons ignore case |
| PathSecurity.IsPathSafeAny | AgentSkills/AutoBot/AutoBot/SkillEngine/PathSecurity.cs:59-62 | the multi-base overload holds iff some base accepts the path, so an empty base list accepts nothing |
| PathSecurity.ResolveSafePath | AgentSkills/AutoBot/AutoBot/SkillEngine/PathSecurity.cs:71-94 | blank arguments give null; a result is always the normalised combination and safe for the base; and whenever the normalised combination is safe it is returned |
| PathSecurity.ResolveSafePathStaysInside | AgentSkills/AutoBot/AutoBot/SkillEngine/PathSecurity.cs:80-88 | every resolved path lies inside the base by segments and is already normalised (normalising it again changes nothing) |
| PathSecurity.GetFullPathIdempotent | AgentSkills/AutoBot/AutoBot/SkillEngine/PathSecurity.cs:27-28 | the normaliser is idempotent on the paths it produces, with or without a final separator |
| PathSecurity.DotDotEscapeIsRejected | AgentSkills/AutoBot/AutoBot/SkillEngine/PathSecurity.cs:80-88 | `../etc` under /base resolves to null |
| PathSecurity.AbsoluteEscapeIsRejected | AgentSkills/AutoBot/AutoBot/SkillEngine/PathSecurity.cs:80-88 | an absolute `/etc` replaces the base in the combination and is rejected |
| PathSecurity.DotIsTheBase | AgentSkills/AutoBot/AutoBot/SkillEngine/PathSecurity.cs:80-86 | `.` resolves to the base directory itself |
| PathSecurity.IsPathSafeWithSymlinkResolution | AgentSkills/AutoBot/AutoBot/SkillEngine/PathSecurity.cs:160-169 | an unresolvable real path is unsafe; otherwise safety is that of the resolved path |
| PathSecurity.Combine | AgentSkills/AutoBot/AutoBot/SkillEngine/PathSecurity.cs:80 | an empty operand yields the other; a rooted right operand replaces the left one; otherwise exactly one separator joins them |
| PathSecurity.CombineResolves | AgentSkills/AutoBot/AutoBot/SkillEngine/PathSecurity.cs:80-81 | normalising a combination walks the right operand from the left operand's directory, and the combination ends in a separator iff the right operand does |
| PathSecurity.IsPathSafeTrimmed | AgentSkills/AutoBot/AutoBot/SkillEngine/PathSecurity.cs:27-43 | the intended check, comparing the normalised paths with any final separator removed |
| PathSecurity.IsPathSafeTrimmedIsContainment | AgentSkills/AutoBot/AutoBot/SkillEngine/PathSecurity.cs:17-50 | the intended check holds iff neither argument is blank, both normalise and the base's segments are a case-insensitive segment prefix of the path's, whatever separators end them |
| PathSecurity.ResolveSafePathTrimmed | AgentSkills/AutoBot/AutoBot/SkillEngine/PathSecurity.cs:71-94 | resolution with the intended check: blank arguments give null; a result is the normalised combination and inside the base; every inside combination is returned |
| PathSecurity.BaseResolvesToItself | AgentSkills/AutoBot/AutoBot/SkillEngine/PathSecurity.cs:80-86 | with the intended check, `.` resolves to the base, whether or not the base ends in a separator |
| PathSecurity.BaseWithSeparatorRejectsItself | AgentSkills/AutoBot/AutoBot/SkillEngine/PathSecurity.cs:30-43 | as written, `.` under "/base/" resolves to null, while the intended check returns "/base" |
| SkillValidator.Success | AgentSkills/AutoBot/AutoBot/SkillEngine/SkillValidationResult.cs:27 | a success is valid and has no message |
| SkillValidator.Failure | AgentSkills/AutoBot/AutoBot/SkillEngine/SkillValidationResult.cs:32 | a failure is invalid and carries exactly its message |
| SkillValidator.NamePatternMeaning | AgentSkills/AutoBot/AutoBot/SkillEngine/SkillValidator.cs:14 | the name pattern matches exactly the 1-64 character names over [a-z0-9-] that start and end with a letter or digit, optionally followed by one final newline |
| SkillValidator.ValidateName | AgentSkills/AutoBot/AutoBot/SkillEngine/SkillValidator.cs:22-42 | checks run blank, then length in UTF-16 code units, then pattern, and the first failing check decides the message, which reports that length; the result is always well formed |
| SkillValidator.ValidateNameAccepts | AgentSkills/AutoBot/AutoBot/SkillEngine/SkillValidator.cs:22-42 | a name is accepted iff it is a skill name, or a skill name followed by one newline, within 64 characters |
| SkillValidator.NameExamples | AgentSkills/AutoBot/AutoBot/SkillEngine/SkillValidator.cs:14-34 | `a` and `pdf--tools` pass; `-pdf` and `Pdf` fail |
| SkillValidator.TrailingNewlineAccepted | AgentSkills/AutoBot/AutoBot/SkillEngine/SkillValidator.cs:14-34 | `abc` followed by a newline passes the validator as written, but not the strict one |
| SkillValidator.ValidateNameStrict | AgentSkills/AutoBot/AutoBot/SkillEngine/SkillValidator.cs:14-42 | the intended validator accepts exactly the skill names |
| SkillValidator.StrictAgreesWithoutNewline | AgentSkills/AutoBot/AutoBot/SkillEngine/SkillValidator.cs:14-42 | on names not ending in a newline both validators agree |
| SkillValidator.ValidateNameMatchesDirectory | AgentSkills/AutoBot/AutoBot/SkillEngine/SkillValidator.cs:50-59 | valid iff the names are equal ignoring case; otherwise the message quotes both |
| SkillValidator.ValidateDescription | AgentSkills/AutoBot/AutoBot/SkillEngine/SkillValidator.cs:66-80 | valid iff present, not blank and at most 1024 UTF-16 code units; blank is reported before length |
| SkillValidator.AstralNameIsTooLong | AgentSkills/AutoBot/AutoBot/SkillEngine/SkillValidator.cs:29-32 | 33 characters outside the Basic Multilingual Plane are 66 code units, so the name is rejected as too long with length 66 |
| SkillValidator.AstralDescriptionIsTooLong | AgentSkills/AutoBot/AutoBot/SkillEngine/SkillValidator.cs:73-77 | 513 characters outside the Basic Multilingual Plane exceed the 1024-unit description limit |
| SkillValidator.ValidateSkillFile | AgentSkills/AutoBot/AutoBot/SkillEngine/SkillValidator.cs:87-102 | valid iff the file exists and is at most 10 MiB; the message reports the integer quotient in MiB |
| SkillValidator.FileSizeMessageTruncates | AgentSkills/AutoBot/AutoBot/SkillEngine/SkillValidator.cs:95-98 | a 10.5 MiB file is reported as 10.00 MB |
| SkillValidator.ValidateSkillFileExact | AgentSkills/AutoBot/AutoBot/SkillEngine/SkillValidator.cs:87-102 | the intended check: same verdict, with the size rounded to hundredths of a MiB |
| SkillValidator.FileSizeMessageExact | AgentSkills/AutoBot/AutoBot/SkillEngine/SkillValidator.cs:95-98 | the intended message reports a 10.5 MiB file as 10.50 MB |
| AllowedTools.Matches | AgentSkills/AutoBot/AutoBot/SkillEngine/AllowedTool.cs:20-32 | a plain entry matches iff the names are equal ignoring case; a pattern entry matches iff the whole name matches the glob ignoring case |
| AllowedTools.StarFreePatternIsExact | AgentSkills/AutoBot/AutoBot/SkillEngine/AllowedTool.cs:27-31 | a pattern without `*` matches a name iff the name equals it ignoring case, or, because of the `$` anchor, is such a name followed by one final newline, which a plain entry rejects |
| AllowedTools.FirstStar | AgentSkills/AutoBot/AutoBot/SkillEngine/AllowedTool.cs:28 | a literal prefix followed by `*` matches iff the name starts with that prefix (ignoring case) and some suffix of the rest matches the remainder |
| AllowedTools.StarExample | AgentSkills/AutoBot/AutoBot/SkillEngine/AllowedTool.cs:27-31 | `execute_*` matches `EXECUTE_shell` |
| AllowedTools.QuestionMarkIsLiteral | AgentSkills/AutoBot/AutoBot/SkillEngine/AllowedTool.cs:28 | `?` is escaped, not a wildcard |
| AllowedTools.DotIsLiteral | AgentSkills/AutoBot/AutoBot/SkillEngine/AllowedTool.cs:28 | `.` is escaped: it matches only itself |
| AllowedTools.Entry | AgentSkills/AutoBot/AutoBot/SkillEngine/AllowedTool.cs:51-52 | an entry keeps its token as name and is a pattern iff the token contains `*` |
| AllowedTools.Parse | AgentSkills/AutoBot/AutoBot/SkillEngine/AllowedTool.cs:39-56 | a null or blank field gives no entries; every entry is built from its own token |
| AllowedTools.ParsedEntriesAreTokens | AgentSkills/AutoBot/AutoBot/SkillEngine/AllowedTool.cs:47-53 | every parsed name is a non-empty, trimmed token without spaces |
| AllowedTools.ParseJoin | AgentSkills/AutoBot/AutoBot/SkillEngine/AllowedTool.cs:47-55 | parsing space-joined tokens gives one entry per token, in input order |
| AllowedTools.ParseAtSpace | AgentSkills/AutoBot/AutoBot/SkillEngine/AllowedTool.cs:47-55 | for any text, a space cuts the field into two fields parsed independently: empty and blank pieces from runs of spaces or padding add no entries |
| Skills.SkillFilePath | AgentSkills/AutoBot/AutoBot/SkillEngine/SkillMetadata.cs:56-61 | the skill file is SKILL.md combined onto the skill's directory with exactly one separator |
| Skills.SkillFileInsideSkillDirectory | AgentSkills/AutoBot/AutoBot/SkillEngine/SkillMetadata.cs:61 | the skill file path is safe for the skill's directory, whether or not the directory path ends in a separator |
| Skills.ToDisplayString | AgentSkills/AutoBot/AutoBot/SkillEngine/SkillMetadata.cs:66 | the display line is `- **`, the name, `**: `, then the description, each at its fixed position, and nothing else |
| Skills.DisplayStringInjective | AgentSkills/AutoBot/AutoBot/SkillEngine/SkillMetadata.cs:66 | the display line determines the name and description when the name has no `*` |
| Skills.SkillNameHasNoStar | AgentSkills/AutoBot/AutoBot/SkillEngine/SkillMetadata.cs:66 | every valid skill name is free of `*`, so valid skills have distinct display lines |
| Skills.NameLimitIsValidatorBoundary | AgentSkills/AutoBot/AutoBot/SkillEngine/SkillMetadata.cs:41 | a 64-character name passes the validator and a 65-character one fails |
| Skills.DescriptionLimitIsValidatorBoundary | AgentSkills/AutoBot/AutoBot/SkillEngine/SkillMetadata.cs:46 | a 1024-character description passes the validator and a 1025-character one fails |
| Skills.FileSizeLimitIsValidatorBoundary | AgentSkills/AutoBot/AutoBot/SkillEngine/SkillMetadata.cs:51 | a file of exactly the size limit passes and one byte more fails |
| Catalog.WithoutOverrides | AgentSkills/AutoBot/AutoBot/SkillsState.cs:32-33 | a user skill survives iff no project skill has its name ignoring case |
| Catalog.AllSkills | AgentSkills/AutoBot/AutoBot/SkillsState.cs:28-36 | the list starts with every project skill in order, followed by exactly the user skills that no project skill overrides |
| Catalog.WithoutOverridesAppend | AgentSkills/AutoBot/AutoBot/SkillsState.cs:33 | the filter keeps user order and distributes over concatenation |
| Catalog.GetSkill | AgentSkills/AutoBot/AutoBot/SkillsState.cs:43-47 | the first project skill with the name if any, otherwise the first user skill with it |
| Catalog.GetSkillIsFirstOfAllSkills | AgentSkills/AutoBot/AutoBot/SkillsState.cs:28-47 | lookup returns the first skill of `AllSkills` with the name |
| Catalog.GetSkillIsListed | AgentSkills/AutoBot/AutoBot/SkillsState.cs:28-47 | a found skill has the requested name and is listed in `AllSkills` |
| Catalog.ProjectShadowsUser | AgentSkills/AutoBot/AutoBot/SkillsState.cs:26-46 | when a project skill has the name, lookup returns a project skill and no user skill of that name is listed |
| PromptTemplates.ReplacePlaceholderOnce | AgentSkills/AutoBot/AutoBot/SkillsSystemPromptTemplates.cs:76-77 | one-pass replacement puts the list text between the header and the instructions, without expanding placeholders inside the list |
| PromptTemplates.GenerateSkillsList | AgentSkills/AutoBot/AutoBot/SkillsSystemPromptTemplates.cs:83-90 | the fixed notice appears iff there are no skills; otherwise, with single-line names and descriptions, splitting the list at newlines gives back exactly one display line per skill, in order |
| PromptTemplates.GenerateSystemPromptWith | AgentSkills/AutoBot/AutoBot/SkillsSystemPromptTemplates.cs:72-78 | when the template's fixed text holds no `{`, the placeholder is replaced exactly once and the prompt is the template header, the skills list of all skills, then the instructions |
| ExecutionPolicy.DefaultPolicy | AgentSkills/AutoBot/AutoBot/ExecutionPolicyOptions.cs:16-53 | no whitelist, no confirmation handler, both auto-approvals on, six risky and eight safe patterns |
| RunCommand.ExtractCommandBase | AgentSkills/AutoBot/AutoBot/Tools/RunCommandTool.cs:173-177 | an all-space command is returned whole; otherwise the base is a non-empty word without spaces |
| RunCommand.ExtractCommandBaseOfWord | AgentSkills/AutoBot/AutoBot/Tools/RunCommandTool.cs:175-176 | after leading spaces, the first space-free word is the base |
| RunCommand.PiecesExist | AgentSkills/AutoBot/AutoBot/Tools/RunCommandTool.cs:175-176 | splitting without empty entries leaves a piece iff the command is not all spaces |
| RunCommand.AssessRiskLevel | AgentSkills/AutoBot/AutoBot/Tools/RunCommandTool.cs:117-141 | Critical iff the lower-cased command contains a risky pattern; Safe iff not risky and it starts with a safe pattern; never High |
| RunCommand.ShouldAutoApprove | AgentSkills/AutoBot/AutoBot/Tools/RunCommandTool.cs:146-153 | only Safe commands are auto-approved, and exactly when the policy flag is set |
| RunCommand.ChainedRmIsCritical | AgentSkills/AutoBot/AutoBot/Tools/RunCommandTool.cs:119-128 | `cat a; rm -rf b` is Critical under the defaults even though it starts with a safe command |
| RunCommand.FormatOptionIsCritical | AgentSkills/AutoBot/AutoBot/Tools/RunCommandTool.cs:119-128 | `git log --format=x` is Critical under the defaults |
| RunCommand.UpperCaseRmIsCritical | AgentSkills/AutoBot/AutoBot/Tools/RunCommandTool.cs:119-124 | `RM -RF /` is Critical: the comparison is case-insensitive |
| RunCommand.ListingIsSafe | AgentSkills/AutoBot/AutoBot/Tools/RunCommandTool.cs:131-136 | `ls -la` is Safe under the defaults |
| RunCommand.Truncate | AgentSkills/AutoBot/AutoBot/Tools/RunCommandTool.cs:245-253 | text within the limit is unchanged; longer text keeps exactly its first `limit` characters followed by the marker |
| RunCommand.ExecuteCommandInternal | AgentSkills/AutoBot/AutoBot/Tools/RunCommandTool.cs:227-260 | a timeout gives exit code -1 and the output so far; a finished process keeps its exit code and its output and error are bounded by the limit plus the marker |
| RunCommand.Execute | AgentSkills/AutoBot/AutoBot/Tools/RunCommandTool.cs:43-112 | whitelist rejection iff a whitelist exists and lacks the base; confirmation asked iff not rejected, a handler exists and the risk is not auto-approved; declined iff the handler says no; the process runs iff neither; success iff it ran and exited 0; a completed result carries exactly the exit code, output and error of the run, with the assessment of its risk; the exception shape appears iff the process ran and threw, and carries its message; the risk field is never High |
| RunCommand.TimeoutIsFailure | AgentSkills/AutoBot/AutoBot/Tools/RunCommandTool.cs:227-239 | a timed-out command is never a success |
| RunCommand.DefaultPolicyRunsEverything | AgentSkills/AutoBot/AutoBot/Tools/RunCommandTool.cs:48-68 | under the default policy nothing is asked and every command runs |
| RunCommand.SafeCommandIsNotConfirmed | AgentSkills/AutoBot/AutoBot/Tools/RunCommandTool.cs:146-153 | a Safe command is not confirmed when safe auto-approval is on |
| ReadFile.Wrap32 | AgentSkills/AutoBot/AutoBot/Tools/ReadFileTool.cs:87 | 32-bit wrap-around: identity in range, congruent modulo 2^32 |
| ReadFile.Skip | AgentSkills/AutoBot/AutoBot/Tools/ReadFileTool.cs:89 | a non-positive count skips nothing; a count past the end leaves nothing |
| ReadFile.Take | AgentSkills/AutoBot/AutoBot/Tools/ReadFileTool.cs:89 | a non-positive count takes nothing; a count past the end takes all |
| ReadFile.StartLine | AgentSkills/AutoBot/AutoBot/Tools/ReadFileTool.cs:87 | no offset starts at line 0; offset n >= 1 starts at n-1; offsets up to 1 start at 0, except the minimum int, which wraps to the maximum |
| ReadFile.SliceLines | AgentSkills/AutoBot/AutoBot/Tools/ReadFileTool.cs:84-90 | with neither offset nor limit the content is unchanged; otherwise the newline-join of the clamped line window |
| ReadFile.SliceLinesAreWindow | AgentSkills/AutoBot/AutoBot/Tools/ReadFileTool.cs:86-89 | a non-empty slice splits back into exactly the window's lines, and a positive limit bounds the number of lines |
| ReadFile.FromFirstLineIsWhole | AgentSkills/AutoBot/AutoBot/Tools/ReadFileTool.cs:86-89 | an offset up to 1 without a limit returns the whole content |
| ReadFile.EmptyWindow | AgentSkills/AutoBot/AutoBot/Tools/ReadFileTool.cs:87-89 | an offset past the end or a non-positive limit gives empty content |
| ReadFile.MinValueOffsetReadsNothing | AgentSkills/AutoBot/AutoBot/Tools/ReadFileTool.cs:87 | offset int.MinValue on a one-line file reads nothing, while offset 0 reads the line |
| ReadFile.StartLineClamped | AgentSkills/AutoBot/AutoBot/Tools/ReadFileTool.cs:87 | the intended start: n-1 for n >= 1, else 0 |
| ReadFile.SliceLinesClamped | AgentSkills/AutoBot/AutoBot/Tools/ReadFileTool.cs:84-90 | the intended slicing, with the start computed without wrap-around |
| ReadFile.ClampedFromFirstLineIsWhole | AgentSkills/AutoBot/AutoBot/Tools/ReadFileTool.cs:86-89 | with the intended start, every offset up to 1 without a limit returns the whole content |
| ReadFile.ClampedAgrees | AgentSkills/AutoBot/AutoBot/Tools/ReadFileTool.cs:87 | the two slicings differ only at offset int.MinValue |
| ReadFile.ReadFileTool | AgentSkills/AutoBot/AutoBot/Tools/ReadFileTool.cs:42-109 | path rejection, then existence, then size decide the failures in that order; the file is read iff it resolved safely, is present and within the size limit (inclusive), and then its size and sliced content are returned; an unreadable file within the limit, and only such a file, fails with its own message |
| ReadFile.RejectionComesFirst | AgentSkills/AutoBot/AutoBot/Tools/ReadFileTool.cs:47-56 | a rejected path fails the same way whatever the file system holds |
| ReadFile.SizeLimitIsInclusive | AgentSkills/AutoBot/AutoBot/Tools/ReadFileTool.cs:70 | a file of exactly the size limit is read |
| ToolFactory.Select | AgentSkills/AutoBot/AutoBot/ToolFactory.cs:38-70 | the tools whose condition holds, as many as conditions hold, in the given order |
| ToolFactory.CreateTools | AgentSkills/AutoBot/AutoBot/ToolFactory.cs:36-71 | a tool is present iff enabled (read_skill also needs a non-empty catalogue); the list is in the fixed order without duplicates and has at most six tools |
| ToolFactory.DefaultsOmitRunCommand | AgentSkills/AutoBot/AutoBot/ToolFactory.cs:60-63 | with default flags run_command is never offered |
| ToolFactory.DefaultsWithoutSkills | AgentSkills/AutoBot/AutoBot/ToolFactory.cs:36-71 | with default flags and no skills exactly the four file tools are offered, in order |
| ToolNotifications.GetArg | AgentSkills/AutoBot/Microsoft/Extensions/AI/ChatClientExtensions.cs:130-134 | null iff the arguments, the key or the value is missing |
| ToolNotifications.FormatToolCallSummary | AgentSkills/AutoBot/Microsoft/Extensions/AI/ChatClientExtensions.cs:114-128 | never empty; unknown names get the generic icon and the name; known names get their own line, which never starts with the generic icon |
| ToolNotifications.FactoryToolsAreKnown | AgentSkills/AutoBot/Microsoft/Extensions/AI/ChatClientExtensions.cs:118-126 | every tool the factory can create has its own summary |
| ToolNotifications.ListDirectoryDefaultsToDot | AgentSkills/AutoBot/Microsoft/Extensions/AI/ChatClientExtensions.cs:120 | a listing without relativePath shows `.` |
| ToolNotifications.Middleware | AgentSkills/AutoBot/Microsoft/Extensions/AI/ChatClientExtensions.cs:87-108 | the output has one element per inner update plus one per function call |
| ToolNotifications.Notices | AgentSkills/AutoBot/Microsoft/Extensions/AI/ChatClientExtensions.cs:91-104 | one injected text update per function call of an update, in content order |
| ToolNotifications.MiddlewareAppend | AgentSkills/AutoBot/Microsoft/Extensions/AI/ChatClientExtensions.cs:87-108 | the transform works update by update: it distributes over concatenation |
| ToolNotifications.UpdatePassesThrough | AgentSkills/AutoBot/Microsoft/Extensions/AI/ChatClientExtensions.cs:91-107 | every inner update is yielded unchanged, directly after its own notices |
| ToolNotifications.PositionsIncrease | AgentSkills/AutoBot/Microsoft/Extensions/AI/ChatClientExtensions.cs:87-108 | inner updates keep their order |
| ToolNotifications.NoCallsUnchanged | AgentSkills/AutoBot/Microsoft/Extensions/AI/ChatClientExtensions.cs:91-107 | a stream without function calls passes through unchanged |
| AgentFunctions.Sanitize | A2A/TravelPlanner/TravelPlannerClient/Utils/AgentFunctionHelper.cs:39-44 | never longer than the input, empty iff the input is, and starting with `_` iff the input starts with a replaced character |
| AgentFunctions.SanitizeIsClean | A2A/TravelPlanner/TravelPlannerClient/Utils/AgentFunctionHelper.cs:39-43 | the result holds only ASCII letters, digits and underscores, never two underscores in a row |
| AgentFunctions.SanitizeKeepsLettersAndDigits | A2A/TravelPlanner/TravelPlannerClient/Utils/AgentFunctionHelper.cs:39-43 | the letters and digits of the name survive, in order, and nothing else is added |
| AgentFunctions.SanitizeClean | A2A/TravelPlanner/TravelPlannerClient/Utils/AgentFunctionHelper.cs:39-43 | a name that is already clean is unchanged |
| AgentFunctions.SanitizeIdempotent | A2A/TravelPlanner/TravelPlannerClient/Utils/AgentFunctionHelper.cs:39-44 | sanitizing twice is sanitizing once |
| AgentFunctions.SanitizeAlphaNumeric | A2A/TravelPlanner/TravelPlannerClient/Utils/AgentFunctionHelper.cs:39-43 | a purely alphanumeric name is unchanged |
| AgentFunctions.OneSeparatorRun | A2A/TravelPlanner/TravelPlannerClient/Utils/AgentFunctionHelper.cs:39-43 | a run of replaced characters between two kept ones becomes one underscore |
| AgentFunctions.SeparatorsCollide | A2A/TravelPlanner/TravelPlannerClient/Utils/AgentFunctionHelper.cs:39-43 | `a-b`, `a b` and `a_b` all become `a_b`, and `x--y` becomes `x_y` |
| AgentFunctions.CreateFunctionTools | A2A/TravelPlanner/TravelPlannerClient/Utils/AgentFunctionHelper.cs:10-29 | one tool per card skill, in card order, named by the sanitized id and described by the skill's fields |
| AgentFunctions.CreatedNamesAreClean | A2A/TravelPlanner/TravelPlannerClient/Utils/AgentFunctionHelper.cs:10-29 | every created tool's name holds only ASCII letters, digits and underscores |
| ChatState.LastAssistant | AGUIWebChat/Client/src/hooks/useChat.ts:80-81 | the index found is an assistant message with no assistant after it; none is found iff there is no assistant message |
| ChatState.UpdateLastAssistant | AGUIWebChat/Client/src/hooks/useChat.ts:78-90 | only the last assistant message changes; without one the list is unchanged |
| ChatState.MapToolCalls | AGUIWebChat/Client/src/hooks/useChat.ts:137-161 | calls with the id are updated, all others kept, the length preserved |
| ChatState.Apply | AGUIWebChat/Client/src/hooks/useChat.ts:65-183 | text start appends an empty streaming assistant message with the event's id; a run error appends an error message; all other events keep the length |
| ChatState.InPlaceChangesOnlyLastAssistant | AGUIWebChat/Client/src/hooks/useChat.ts:77-168 | in-place events keep every id and role and change at most the last assistant message |
| ChatState.TextMessageEndStopsStreaming | AGUIWebChat/Client/src/hooks/useChat.ts:93-104 | the end of a text message clears the last assistant message's streaming flag and changes nothing else in it |
| ChatState.ToolCallStartAppendsCall | AGUIWebChat/Client/src/hooks/useChat.ts:106-128 | a tool-call start appends one call with the event's id and name, empty arguments and not complete, after the existing calls of the last assistant message, and changes nothing else in it |
| ChatState.ContentDeltaAppends | AGUIWebChat/Client/src/hooks/useChat.ts:77-91 | a content delta is appended to the last assistant message's text, and nothing else in that message changes |
| ChatState.ToolCallEventsTouchOnlyTheirCall | AGUIWebChat/Client/src/hooks/useChat.ts:130-168 | args and end events change only the calls with their id: they append to args or mark complete; the message's id, role, content, streaming and error flags are unchanged |
| ChatState.DeltasAccumulate | AGUIWebChat/Client/src/hooks/useChat.ts:77-91 | a run of deltas appends their concatenation |
| ChatState.StreamedMessage | AGUIWebChat/Client/src/hooks/useChat.ts:65-91 | a start followed by deltas yields one streaming assistant message holding their concatenation |
| ChatState.SendMessage | AGUIWebChat/Client/src/hooks/useChat.ts:37-52 | blank input changes nothing; otherwise exactly one user message with the trimmed text is appended, the run starts and the error clears |
| ChatState.BlankInputIgnored | AGUIWebChat/Client/src/hooks/useChat.ts:38-39 | white-space-only input is ignored |
| ChatState.SentTextIsTrimmed | AGUIWebChat/Client/src/hooks/useChat.ts:38-48 | the sent message has the new id and the user role, is not streaming, has no tool calls and no error, and its text is a contiguous piece of the input with only white space outside it and none at its own ends |
| ChatState.OnRunError | AGUIWebChat/Client/src/hooks/useChat.ts:170-183 | the run stops, the error is the event message or the default text, and an error message with that text is appended |
| ChatState.OnEvent | AGUIWebChat/Client/src/hooks/useChat.ts:65-168 | streaming events change only the message list |
| ChatState.OnRunSettled | AGUIWebChat/Client/src/hooks/useChat.ts:186-195 | settling stops the run; a rejection sets its message or the default text |
| ChatState.AbortRun | AGUIWebChat/Client/src/hooks/useChat.ts:198-201 | aborting stops the run and keeps messages and error |
| ChatState.ClearChat | AGUIWebChat/Client/src/hooks/useChat.ts:203-208 | clearing returns to the initial state |
| Judge.Handle | Judge/JudgeExecutor.cs:33-54 | each guess counts one try and keeps the target; output iff the guess hits, Below iff it is lower, Above iff higher; the output names the target and the tries |
| Judge.Play | Judge/JudgeExecutor.cs:21-40 | a run of guesses gives one effect per guess and counts every guess |
| Judge.PlayAnswersEachGuess | Judge/JudgeExecutor.cs:40-53 | the k-th effect answers the k-th guess with k earlier tries counted |
| Judge.FoundReportsTries | Judge/JudgeExecutor.cs:40-45 | a hit on guess k reports k+1 tries, and no other count gives the same text |
| Judge.Game42 | Judge/JudgeExecutor.cs:40-53 | target 42 and guesses 50, 25, 40, 42 give Above, Below, Below and `42 found in 4 tries!` |
| StepExecutor.NewStep | Checkpoints/StepExecutor.cs:7-14 | a new step holds empty text |
| StepExecutor.Handle | Checkpoints/StepExecutor.cs:16-22 | the result is the input followed by the step's tag; it becomes the state and is both yielded and returned, whatever the prior state |
| StepExecutor.Checkpoint | Checkpoints/StepExecutor.cs:25-29 | the state is stored under the step's key and every other key is untouched |
| StepExecutor.Restore | Checkpoints/StepExecutor.cs:31-35 | the state is read from the step's key; a missing key reads as null |
| StepExecutor.CheckpointRestore | Checkpoints/StepExecutor.cs:28-33 | restoring right after checkpointing brings back the checkpointed state |
| StepExecutor.CheckpointsAreIndependent | Checkpoints/StepExecutor.cs:11-33 | one step's checkpoint never changes what another step restores |
| StepExecutor.ChainTags | Checkpoints/StepExecutor.cs:19-21 | a chain's output is its input followed by each step's tag in order |
| StepExecutor.ThreeSteps | Olds/CheckpointDemo/CheckpointWorkflow.cs:11-32 | steps 1, 2, 3 in a row append ` -> Step1 -> Step2 -> Step3` to the start text (`Checkpoint Workflow` in the demo) |
| Feedback.NewExecutor | Olds/AISlogan/FeedbackExecutor.cs:16-20 | the pass mark is 8, three attempts are allowed, none is used |
| Feedback.Review | Olds/AISlogan/FeedbackExecutor.cs:42-78 | the feedback event comes first, then one decision: accept on a passing rating whatever the attempts, reject when the attempts are used up, else send the feedback back and count an attempt |
| Feedback.ReviewKeepsAttemptsBounded | Olds/AISlogan/FeedbackExecutor.cs:70-77 | the attempt count stays within the limit |
| Feedback.SendsFeedbackIffRetry | Olds/AISlogan/FeedbackExecutor.cs:64-77 | feedback goes back iff the review neither accepts nor rejects; otherwise there is an output |
| Feedback.Reviews | Olds/AISlogan/FeedbackExecutor.cs:62-77 | each review emits exactly two effects |
| Feedback.FailingCriticRetriesThenRejects | Olds/AISlogan/FeedbackExecutor.cs:70-77 | a critic that never passes the slogan gets the remaining attempts as feedback rounds, and the next review rejects |
| Feedback.DefaultCriticRejectsOnFourthReview | Olds/AISlogan/FeedbackExecutor.cs:70-77 | with the defaults, three feedback rounds and a rejection on the fourth review naming 3 attempts |
| ReverseText.EncodeChar | Olds/Test01/ReverseTextExecutor.cs:13 | BMP characters take one non-surrogate unit; others take a high and a low surrogate |
| ReverseText.Utf16HasLengthUnits | Olds/Test01/ReverseTextExecutor.cs:13 | the UTF-16 encoding of a text has as many code units as the length the validators count |
| ReverseText.Reverse | Olds/Test01/ReverseTextExecutor.cs:13 | same length, unit i is unit n-1-i of the input |
| ReverseText.ReverseInvolution | Olds/Test01/ReverseTextExecutor.cs:13 | reversing twice gives the input back |
| ReverseText.Handle | Olds/Test01/ReverseTextExecutor.cs:5-14 | one event whose text is the prefix and the input, and the input's code units reversed |
| ReverseText.ReverseBmp | Olds/Test01/ReverseTextExecutor.cs:13 | on BMP text, reversing units is reversing characters |
| ReverseText.ReverseSplitsSurrogatePair | Olds/Test01/ReverseTextExecutor.cs:13 | a character outside the BMP reverses into a string that starts with a low surrogate and encodes no text |
| ReverseText.HandleByScalar | Olds/Test01/ReverseTextExecutor.cs:9-14 | the intended handler: same event, the characters reversed |
| ReverseText.HandleByScalarCorrect | Olds/Test01/ReverseTextExecutor.cs:13 | the intended result is always well-formed text, undoes itself and agrees with the handler on BMP text |
| ChatHistory.Create | Olds/ThreadDemo/CustomeChatHistoryProvider.cs:12-22 | the key is restored only from a JSON string; the messages start empty |
| ChatHistory.Invoked | Olds/ThreadDemo/CustomeChatHistoryProvider.cs:29-43 | a failed run changes nothing; a successful one draws a key only if there is none and appends the request twice, then the responses |
| ChatHistory.Serialize | Olds/ThreadDemo/CustomeChatHistoryProvider.cs:45-49 | only the key is serialized, as a string or null |
| ChatHistory.SerializeRoundTrip | Olds/ThreadDemo/CustomeChatHistoryProvider.cs:45-49 | a serialize and restore cycle keeps the key and loses the messages |
| ChatHistory.KeyIsStable | Olds/ThreadDemo/CustomeChatHistoryProvider.cs:37 | once set, the key never changes |
| ChatHistory.HistoryGrows | Olds/ThreadDemo/CustomeChatHistoryProvider.cs:41-42 | runs only append to the stored history |
| ChatHistory.RequestStoredTwice | Olds/ThreadDemo/CustomeChatHistoryProvider.cs:41 | one request and one reply are stored as request, request, reply |
| ChatHistory.InvokedOnce | Olds/ThreadDemo/CustomeChatHistoryProvider.cs:29-43 | the intended append leaves failed runs alone and sets the key exactly as the code does |
| ChatHistory.InvokingAfterRestore | Olds/ThreadDemo/CustomeChatHistoryProvider.cs:24-27 | with the intended append, what a restored thread hands its next run is exactly the conversation since the restore |
| ChatHistory.HistoryIsTranscript | Olds/ThreadDemo/CustomeChatHistoryProvider.cs:39-42 | with the intended append the history is exactly each successful run's requests and replies, once each, in order |
| ChatHistory.SingleTurnStoredOnce | Olds/ThreadDemo/CustomeChatHistoryProvider.cs:39-42 | with the intended append one request and one reply are stored as request, reply |
| Text.JoinSplit | AgentSkills/AutoBot/AutoBot/Tools/ReadFileTool.cs:86-89 | joining the pieces of a split with the separator gives the text back |
| Text.SplitJoin | AgentSkills/AutoBot/AutoBot/Tools/ReadFileTool.cs:86-89 | splitting a join of separator-free pieces gives the pieces back |
| Text.TrimWithSpec | AGUIWebChat/Client/src/hooks/useChat.ts:38 | trimming removes exactly the leading and trailing white space and leaves a result that starts and ends with non-space |
| Text.TrimEmptyIffSpace | AGUIWebChat/Client/src/hooks/useChat.ts:38-39 | the trimmed text is empty iff the text is all white space |
| Text.Utf16LengthBmp | AgentSkills/AutoBot/AutoBot/SkillEngine/SkillValidator.cs:29 | a text's UTF-16 length equals its character count iff every character lies in the Basic Multilingual Plane |

## Left out

- The workflow engine: executor ids such as `StepExecutor{step}` (Checkpoints/StepExecutor.cs:11), supersteps, edge routing, request ports, the checkpoint manager and event streaming. It belongs to an external workflow SDK, so executors are folded over input sequences instead.
- LLM calls and JSON parsing of the critic's reply. The feedback executor receives the parsed verdict as an input, and a failed parse (an exception) is not modelled.
- File-system and process I/O are parameters:
  - file existence and size;
  - the symlink resolver;
  - the process outcome of `run_command`;
  - the shell quoting of the command (RunCommandTool.cs:187-189).
- Exceptions thrown by the confirmation handler or by `Path.Combine`. Of what the tools' outer `catch` blocks handle, only a failing process run (`RunCommand.Execute`'s exception shape) and an unreadable file (`ReadFile.ReadFileTool`'s failure result) are modelled.
- Cancellation tokens, console logging and JSON serialisation of tool results. Results are datatypes with the same fields.
- `IsSymbolicLink` and `GetRealPath`: file-system queries, passed in as a resolver function.
- The `useChat` network transport and the copy of the history handed to the agent (useChat.ts:54-62, 186-187). Message ids from `crypto.randomUUID` and `Guid.NewGuid` are inputs.
- RunCommand.ExecuteCommandInternal: `maxOutputSizeBytes` is a natural number; with a negative limit the source would throw in `Substring`.
- RunCommand.ExecuteCommandInternal: the timeout branch returns the captured output untruncated, as the source does.
- Judge.Handle: `tries` is unbounded. The source's 32-bit counter would wrap only after 2^31 guesses.
- Feedback.Review: the default settings are the only construction path modelled. Settings given through `init` are parameters of the executor state.
- PromptTemplates.GenerateSystemPromptWith: its layout is promised only when the template's fixed text contains no `{`. `GenerateSystemPrompt` applies it to the source's own header and instructions, which hold no `{`, but that is not proved for those long literals, so `GenerateSystemPrompt` itself carries no contract.
- ChatHistory.Create: the serializer options argument is ignored, as in the source.
- ChatHistory.Invoked: the request messages are taken as non-null. A null request list would throw before the `??` fallback applies.
- Culture-sensitive case mapping is ASCII folding, and .NET and JavaScript white space are modelled explicitly.
- SkillValidator.ValidateSkillFile: the size in the message is rendered with `.` as the decimal point. The source formats with `:F2` in the current culture, which writes `10,00` under a culture such as de-DE.
- RunCommand.AssessRiskLevel: the safe-prefix test is an ordinal prefix test. The source calls the one-argument `StartsWith` (RunCommandTool.cs:133), which compares in the current culture; under ICU it ignores characters such as U+00AD (soft hyphen) and U+200B (zero-width space), so `l\u00ADs` could count as starting with `ls`.
- RunCommand.Truncate: the limit counts characters rather than UTF-16 code units. The source's `Substring` (RunCommandTool.cs:247, :252) counts code units and may cut a surrogate pair in half; the model never splits a character.

## Findings

| source | as written | input that shows it | evidently intended | confidence | as-written member | corrected member |
|---|---|---|---|---|---|---|
| AgentSkills/AutoBot/AutoBot/SkillEngine/SkillValidator.cs:14 | the pattern ends in `$`, which in .NET also matches before a final newline | the name `abc` followed by a newline is accepted | only names over [a-z0-9-] are accepted (anchor with `\z`) | high, not executed | SkillValidator.TrailingNewlineAccepted | SkillValidator.ValidateNameStrict |
| AgentSkills/AutoBot/AutoBot/SkillEngine/SkillValidator.cs:98 | `Length / (1024 * 1024)` is integer division, so `:F2` always prints `.00` | an 11010048-byte file is reported as 10.00 MB | the size in MB with two real decimals (10.50 MB) | high, not executed | SkillValidator.FileSizeMessageTruncates | SkillValidator.ValidateSkillFileExact |
| AgentSkills/AutoBot/AutoBot/Tools/ReadFileTool.cs:87 | `(offset ?? 1) - 1` wraps for int.MinValue, so the start becomes int.MaxValue | offset int.MinValue on a non-empty file reads nothing, while offset 0 reads everything | every offset up to 1 reads from the first line | medium, not executed | ReadFile.MinValueOffsetReadsNothing | ReadFile.SliceLinesClamped |
| Olds/ThreadDemo/CustomeChatHistoryProvider.cs:41 | `RequestMessages.Concat(RequestMessages ?? [])` appends the request messages twice | one request q and reply a are stored as q, q, a | store the request and the reply once each (the comment on line 39) | high, not executed | ChatHistory.RequestStoredTwice | ChatHistory.InvokedOnce |
| AgentSkills/AutoBot/AutoBot/SkillEngine/PathSecurity.cs:30-43 | the base is normalised with its final separator kept, while the resolved path loses it, so the equality test fails and the prefix test compares against the base itself | `ResolveSafePath("/base/", ".")` resolves to "/base", which is neither equal to "/base/" nor starts with it, and returns null | the base directory itself is allowed, as the comment on line 30 says, however the base is spelled | high, not executed | PathSecurity.BaseWithSeparatorRejectsItself | PathSecurity.ResolveSafePathTrimmed |
| Olds/Test01/ReverseTextExecutor.cs:13 | `input.Reverse()` reverses UTF-16 code units and swaps surrogate pairs | a single character U+1F600 reverses into a low surrogate followed by a high one | reverse the text's characters | medium, not executed | ReverseText.ReverseSplitsSurrogatePair | ReverseText.HandleByScalar |
