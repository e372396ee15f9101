/**
 * The travel planner's bridge from a remote agent's card to local function
 * tools (`AgentFunctionHelper`): one tool per advertised skill, named by
 * the skill id with every run of characters outside `[0-9A-Za-z]` replaced
 * by a single underscore.
 */
module AgentFunctions {
  import opened Wrappers
  import opened Text

  /** The characters a tool name may keep. */
  predicate Kept(c: char) {
    IsAsciiAlphaNumeric(c)
  }

  /** Drops the run of replaced characters at the head of `s`. */
  function DropRun(s: string): (r: string)
    ensures |r| <= |s| && r == s[|s| - |r|..]
    ensures forall i :: 0 <= i < |s| - |r| ==> !Kept(s[i])
    ensures r == [] || Kept(r[0])
  {
    if s == [] || Kept(s[0]) then s else DropRun(s[1..])
  }

  /** Only kept characters and underscores, never two underscores in a row. */
  predicate Clean(s: string) {
    && (forall i :: 0 <= i < |s| ==> Kept(s[i]) || s[i] == '_')
    && (forall i :: 0 <= i < |s| - 1 ==> !(s[i] == '_' && s[i + 1] == '_'))
  }

  /**
   * `Sanitize`: `Regex.Replace(name, "[^0-9A-Za-z]+", "_")`. Each maximal
   * run of other characters (underscores included) becomes one underscore.
   */
  function Sanitize(name: string): (r: string)
    ensures |r| <= |name|
    ensures r != [] && r[0] == '_' <==> name != [] && !Kept(name[0])
    ensures r == [] <==> name == []
    decreases |name|
  {
    if name == [] then []
    else if Kept(name[0]) then [name[0]] + Sanitize(name[1..])
    else "_" + Sanitize(DropRun(name[1..]))
  }

  /** Prefixing a character keeps a string clean unless it makes two underscores meet. */
  lemma CleanCons(c: char, t: string)
    requires Kept(c) || c == '_'
    requires Clean(t)
    requires c == '_' ==> t == [] || t[0] != '_'
    ensures Clean([c] + t)
  {
    var s := [c] + t;
    assert forall i :: 1 <= i < |s| ==> s[i] == t[i - 1];
  }

  /** The sanitized name holds only letters, digits and single underscores. */
  lemma {:induction false} SanitizeIsClean(name: string)
    ensures Clean(Sanitize(name))
    decreases |name|
  {
    if name != [] {
      if Kept(name[0]) {
        SanitizeIsClean(name[1..]);
        KeptHeadIsClean(name);
      } else {
        SanitizeIsClean(DropRun(name[1..]));
        RunHeadIsClean(name);
      }
    }
  }

  lemma KeptHeadIsClean(name: string)
    requires name != [] && Kept(name[0])
    requires Clean(Sanitize(name[1..]))
    ensures Clean(Sanitize(name))
  {
    var t := Sanitize(name[1..]);
    assert Sanitize(name) == [name[0]] + t;
    CleanCons(name[0], t);
  }

  lemma RunHeadIsClean(name: string)
    requires name != [] && !Kept(name[0])
    requires Clean(Sanitize(DropRun(name[1..])))
    ensures Clean(Sanitize(name))
  {
    var t := Sanitize(DropRun(name[1..]));
    assert t == [] || t[0] != '_';
    CleanCons('_', t);
  }

  /** The kept characters of a string, in order. */
  function KeptChars(s: string): string {
    if s == [] then [] else (if Kept(s[0]) then [s[0]] else []) + KeptChars(s[1..])
  }

  lemma {:induction false} KeptCharsOfDropRun(s: string)
    ensures KeptChars(DropRun(s)) == KeptChars(s)
  {
    if s != [] && !Kept(s[0]) {
      KeptCharsOfDropRun(s[1..]);
    }
  }

  /** Sanitizing keeps every letter and digit, in order, and adds none. */
  lemma {:induction false} SanitizeKeepsLettersAndDigits(name: string)
    ensures KeptChars(Sanitize(name)) == KeptChars(name)
    decreases |name|
  {
    if name != [] {
      if Kept(name[0]) {
        SanitizeKeepsLettersAndDigits(name[1..]);
        assert ([name[0]] + Sanitize(name[1..]))[1..] == Sanitize(name[1..]);
      } else {
        var rest := DropRun(name[1..]);
        SanitizeKeepsLettersAndDigits(rest);
        KeptCharsOfDropRun(name[1..]);
        assert ("_" + Sanitize(rest))[1..] == Sanitize(rest);
      }
    }
  }

  /** A clean string is its own sanitized form. */
  lemma {:induction false} SanitizeClean(s: string)
    requires Clean(s)
    ensures Sanitize(s) == s
  {
    if s != [] {
      var t := s[1..];
      CleanTail(s);
      SanitizeClean(t);
      if !Kept(s[0]) && t != [] {
        assert !(s[0] == '_' && s[1] == '_');
        assert Kept(t[0]);
      }
    }
  }

  lemma CleanTail(s: string)
    requires s != [] && Clean(s)
    ensures Clean(s[1..])
  {
    var t := s[1..];
    assert forall i :: 0 <= i < |t| ==> t[i] == s[i + 1];
  }

  /** Sanitizing twice is sanitizing once. */
  lemma SanitizeIdempotent(name: string)
    ensures Sanitize(Sanitize(name)) == Sanitize(name)
  {
    SanitizeIsClean(name);
    SanitizeClean(Sanitize(name));
  }

  /** A name made only of letters and digits is left alone. */
  lemma SanitizeAlphaNumeric(name: string)
    requires forall i :: 0 <= i < |name| ==> IsAsciiAlphaNumeric(name[i])
    ensures Sanitize(name) == name
  {
    SanitizeClean(name);
  }

  /** A letter, a run of separators, then a letter: the run becomes one underscore. */
  lemma {:induction false} OneSeparatorRun(x: char, run: string, y: char)
    requires Kept(x) && Kept(y)
    requires run != [] && forall i :: 0 <= i < |run| ==> !Kept(run[i])
    ensures Sanitize([x] + run + [y]) == [x, '_', y]
  {
    var s := [x] + run + [y];
    assert s[1..] == run + [y];
    assert (run + [y])[1..] == run[1..] + [y];
    DropRunAcross(run[1..], [y]);
    assert Sanitize([y]) == [y];
  }

  /** Dropping a separator run in front of a kept character. */
  lemma {:induction false} DropRunAcross(run: string, rest: string)
    requires forall i :: 0 <= i < |run| ==> !Kept(run[i])
    requires rest != [] && Kept(rest[0])
    ensures DropRun(run + rest) == rest
  {
    if run == [] {
      assert run + rest == rest;
    } else {
      assert (run + rest)[1..] == run[1..] + rest;
      DropRunAcross(run[1..], rest);
    }
  }

  /** A dash between two letters becomes an underscore. */
  lemma DashCollapses()
    ensures Sanitize("a-b") == "a_b"
  {
    assert Sanitize("b") == "b";
    assert Sanitize("-b") == "_b" by {
      assert "-b"[1..] == "b" && !Kept('-');
      assert DropRun("b") == "b";
      assert "_" + "b" == "_b";
    }
    assert "a-b"[1..] == "-b";
    assert ['a'] + "_b" == "a_b";
  }

  /** A space between two letters becomes an underscore. */
  lemma SpaceCollapses()
    ensures Sanitize("a b") == "a_b"
  {
    assert Sanitize("b") == "b";
    assert Sanitize(" b") == "_b" by {
      assert " b"[1..] == "b" && !Kept(' ');
      assert DropRun("b") == "b";
      assert "_" + "b" == "_b";
    }
    assert "a b"[1..] == " b";
    assert ['a'] + "_b" == "a_b";
  }

  /** An underscore between two letters stays one underscore. */
  lemma UnderscoreStays()
    ensures Sanitize("a_b") == "a_b"
  {
    assert Sanitize("b") == "b";
    assert Sanitize("_b") == "_b" by {
      assert "_b"[1..] == "b" && !Kept('_');
      assert DropRun("b") == "b";
      assert "_" + "b" == "_b";
    }
    assert "a_b"[1..] == "_b";
    assert ['a'] + "_b" == "a_b";
  }

  /** Two dashes between two letters become one underscore. */
  lemma DoubleDashCollapses()
    ensures Sanitize("x--y") == "x_y"
  {
    assert Sanitize("y") == "y";
    assert DropRun("-y") == "y" by {
      assert "-y"[1..] == "y" && !Kept('-');
    }
    assert Sanitize("--y") == "_y" by {
      assert "--y"[1..] == "-y" && !Kept('-');
      assert "_" + "y" == "_y";
    }
    assert "x--y"[1..] == "--y";
    assert ['x'] + "_y" == "x_y";
  }

  /** Ids that differ only in their separators collide. */
  lemma SeparatorsCollide()
    ensures Sanitize("a-b") == "a_b" && Sanitize("a b") == "a_b" && Sanitize("a_b") == "a_b"
    ensures Sanitize("x--y") == "x_y"
  {
    DashCollapses();
    SpaceCollapses();
    UnderscoreStays();
    DoubleDashCollapses();
  }

  // ---------------------------------------------------------------------
  // One function tool per skill
  // ---------------------------------------------------------------------

  /** The fields of an agent card skill that the tool uses. */
  datatype AgentSkill = AgentSkill(
    id: string,
    description: string,
    tags: Option<seq<string>>,
    examples: Option<seq<string>>,
    inputModes: Option<seq<string>>,
    outputModes: Option<seq<string>>)

  /** The function tool created for a skill. */
  datatype FunctionTool = FunctionTool(name: string, description: string)

  /** A bracketed, comma-separated list; a null list prints as `[]`. */
  function ListText(xs: Option<seq<string>>): string {
    "[" + Join(xs.GetOr([]), ", ") + "]"
  }

  /** The JSON-like description text of a skill's tool. */
  function ToolDescription(s: AgentSkill): string {
    "{\n"
    + "    \"description\": \"" + s.description + "\",\n"
    + "    \"tags\": \"" + ListText(s.tags) + "\",\n"
    + "    \"examples\": \"" + ListText(s.examples) + "\",\n"
    + "    \"inputModes\": \"" + ListText(s.inputModes) + "\",\n"
    + "    \"outputModes\": \"" + ListText(s.outputModes) + "\"\n"
    + "}"
  }

  /** `CreateFunctionTools`: one tool per card skill, in card order, named by the sanitized id. */
  function CreateFunctionTools(skills: seq<AgentSkill>): (r: seq<FunctionTool>)
    ensures |r| == |skills|
    ensures forall i :: 0 <= i < |r| ==> r[i].name == Sanitize(skills[i].id)
    ensures forall i :: 0 <= i < |r| ==> r[i].description == ToolDescription(skills[i])
  {
    seq(|skills|, i requires 0 <= i < |skills| => FunctionTool(Sanitize(skills[i].id), ToolDescription(skills[i])))
  }

  /** Every created tool has a clean name. */
  lemma CreatedNamesAreClean(skills: seq<AgentSkill>)
    ensures forall i :: 0 <= i < |skills| ==> Clean(CreateFunctionTools(skills)[i].name)
  {
    forall i | 0 <= i < |skills| {
      SanitizeIsClean(skills[i].id);
    }
  }
}
