/**
 * The runtime tool list of AutoBot (`ToolFactory.CreateTools`): each tool
 * is added when its flag is set, in a fixed order; `read_skill` also needs
 * a non-empty skill catalogue.
 */
module ToolFactory {
  import opened Catalog

  /** The tools the factory can create. */
  datatype Tool = ReadFile | WriteFile | ListDirectory | SearchFiles | RunCommand | ReadSkill

  /** The name each tool is registered under. */
  function ToolName(t: Tool): string {
    match t
    case ReadFile => "read_file"
    case WriteFile => "write_file"
    case ListDirectory => "list_directory"
    case SearchFiles => "search_files"
    case RunCommand => "run_command"
    case ReadSkill => "read_skill"
  }

  /** The position of each tool in the factory's order. */
  function Rank(t: Tool): (n: nat)
    ensures n < 6
  {
    match t
    case ReadFile => 0
    case WriteFile => 1
    case ListDirectory => 2
    case SearchFiles => 3
    case RunCommand => 4
    case ReadSkill => 5
  }

  /** The enable flags of `AutoBotOptions`. */
  datatype ToolFlags = ToolFlags(
    enableReadFile: bool,
    enableWriteFile: bool,
    enableListDirectory: bool,
    enableSearchFiles: bool,
    enableRunCommand: bool,
    enableReadSkill: bool)

  /** The defaults: every tool on except `run_command`. */
  const DefaultFlags: ToolFlags := ToolFlags(true, true, true, true, false, true)

  /** Whether the factory's condition for tool `t` holds. */
  predicate Enabled(f: ToolFlags, st: SkillsState, t: Tool) {
    match t
    case ReadFile => f.enableReadFile
    case WriteFile => f.enableWriteFile
    case ListDirectory => f.enableListDirectory
    case SearchFiles => f.enableSearchFiles
    case RunCommand => f.enableRunCommand
    case ReadSkill => f.enableReadSkill && |AllSkills(st)| > 0
  }

  /** The six conditions, in the factory's order. */
  function Conditions(f: ToolFlags, st: SkillsState): seq<bool> {
    [f.enableReadFile, f.enableWriteFile, f.enableListDirectory, f.enableSearchFiles,
     f.enableRunCommand, f.enableReadSkill && |AllSkills(st)| > 0]
  }

  function CountTrue(bs: seq<bool>): (n: nat)
    ensures n <= |bs|
  {
    if bs == [] then 0 else (if bs[0] then 1 else 0) + CountTrue(bs[1..])
  }

  /** Every tool, in the factory's order. */
  const AllTools: seq<Tool> := [ReadFile, WriteFile, ListDirectory, SearchFiles, RunCommand, ReadSkill]

  /** Tools ranked strictly increasingly: in the factory's order, each at most once. */
  predicate InOrder(ts: seq<Tool>) {
    forall i, j :: 0 <= i < j < |ts| ==> Rank(ts[i]) < Rank(ts[j])
  }

  /** The tools whose condition holds, in the order given: one `if (...) tools.Add(...)` each. */
  function Select(cs: seq<bool>, ts: seq<Tool>): (r: seq<Tool>)
    requires |cs| == |ts|
    ensures |r| == CountTrue(cs)
    ensures forall t :: t in r <==> exists i :: 0 <= i < |ts| && cs[i] && ts[i] == t
    ensures InOrder(ts) ==> InOrder(r)
  {
    if cs == [] then []
    else
      var rest := Select(cs[1..], ts[1..]);
      assert forall i :: 1 <= i < |ts| ==> ts[i] == ts[1..][i - 1] && cs[i] == cs[1..][i - 1];
      if cs[0] then
        assert InOrder(ts) ==> forall k :: 0 <= k < |rest| ==> Rank(ts[0]) < Rank(rest[k]) by {
          if InOrder(ts) {
            forall k | 0 <= k < |rest| ensures Rank(ts[0]) < Rank(rest[k]) {
              assert rest[k] in rest;
            }
          }
        }
        [ts[0]] + rest
      else rest
  }

  /**
   * `CreateTools`: exactly the enabled tools, in the fixed order (so with
   * no duplicates), one per satisfied condition.
   */
  function CreateTools(f: ToolFlags, st: SkillsState): (r: seq<Tool>)
    ensures forall t :: t in r <==> Enabled(f, st, t)
    ensures InOrder(r)
    ensures |r| == CountTrue(Conditions(f, st)) <= 6
  {
    AllToolsInOrder();
    forall t ensures t in Select(Conditions(f, st), AllTools) <==> Enabled(f, st, t) {
      ConditionOfTool(f, st, t);
    }
    Select(Conditions(f, st), AllTools)
  }

  /** `AllTools` lists each tool at its rank. */
  lemma AllToolsInOrder()
    ensures forall i :: 0 <= i < |AllTools| ==> Rank(AllTools[i]) == i
    ensures InOrder(AllTools)
  {
  }

  /** The condition at a tool's rank is that tool's condition, and no other position holds it. */
  lemma ConditionOfTool(f: ToolFlags, st: SkillsState, t: Tool)
    ensures (exists i :: 0 <= i < |AllTools| && Conditions(f, st)[i] && AllTools[i] == t) <==> Enabled(f, st, t)
  {
    AllToolsInOrder();
    var cs := Conditions(f, st);
    assert AllTools[Rank(t)] == t;
    match t
    case ReadFile => assert cs[0] == Enabled(f, st, t);
    case WriteFile => assert cs[1] == Enabled(f, st, t);
    case ListDirectory => assert cs[2] == Enabled(f, st, t);
    case SearchFiles => assert cs[3] == Enabled(f, st, t);
    case RunCommand => assert cs[4] == Enabled(f, st, t);
    case ReadSkill => assert cs[5] == Enabled(f, st, t);
  }

  /** With the default flags `run_command` is never offered. */
  lemma DefaultsOmitRunCommand(st: SkillsState)
    ensures RunCommand !in CreateTools(DefaultFlags, st)
  {
  }

  /** With the default flags and an empty catalogue only the four file tools are offered. */
  lemma DefaultsWithoutSkills(st: SkillsState)
    requires st.projectSkills == [] && st.userSkills == []
    ensures CreateTools(DefaultFlags, st) == [ReadFile, WriteFile, ListDirectory, SearchFiles]
  {
    assert AllSkills(st) == [];
    var cs := Conditions(DefaultFlags, st);
    assert cs == [true, true, true, true, false, false];
    assert Select(cs[5..], AllTools[5..]) == [];
    assert Select(cs[4..], AllTools[4..]) == [];
    assert Select(cs[3..], AllTools[3..]) == [SearchFiles];
    assert Select(cs[2..], AllTools[2..]) == [ListDirectory, SearchFiles];
    assert Select(cs[1..], AllTools[1..]) == [WriteFile, ListDirectory, SearchFiles];
  }
}
