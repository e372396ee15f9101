/**
 * Skill metadata parsed from a SKILL.md front matter (AutoBot
 * `SkillMetadata`): its limits, the path of its SKILL.md file and the line
 * that represents it in a system prompt.
 */
module Skills {
  import opened Wrappers
  import opened Text
  import opened PathSecurity
  import opened AllowedTools
  import SkillValidator

  const MaxNameLength: nat := 64
  const MaxDescriptionLength: nat := 1024
  const MaxSkillFileSize: nat := 10 * 1024 * 1024
  const SkillFileName: string := "SKILL.md"

  /** `SkillMetadata`; the optional members are `None` when absent. */
  datatype SkillMetadata = SkillMetadata(
    name: string,
    description: string,
    path: string,
    license: Option<string>,
    compatibility: Option<string>,
    metadata: Option<map<string, string>>,
    allowedTools: Option<seq<AllowedTool>>)

  /** `SkillFilePath`: the skill directory combined with "SKILL.md". */
  function SkillFilePath(m: SkillMetadata): (r: string)
    ensures m.path == [] ==> r == SkillFileName
    ensures m.path != [] && m.path[|m.path| - 1] == Separator ==> r == m.path + SkillFileName
    ensures m.path != [] && m.path[|m.path| - 1] != Separator ==> r == m.path + [Separator] + SkillFileName
  {
    Combine(m.path, SkillFileName)
  }

  /** `ToDisplayString`: a Markdown list item with the name in bold. */
  function ToDisplayString(m: SkillMetadata): (r: string)
    ensures |r| == |m.name| + |m.description| + 8
    ensures r[..4] == "- **" && r[4..4 + |m.name|] == m.name
    ensures r[4 + |m.name|..8 + |m.name|] == "**: " && r[8 + |m.name|..] == m.description
  {
    "- **" + m.name + "**: " + m.description
  }

  // ---------------------------------------------------------------------
  // The limits are the validator's boundaries
  // ---------------------------------------------------------------------

  /** A name of exactly `MaxNameLength` letters is accepted; one more is refused for its length. */
  lemma NameLimitIsValidatorBoundary()
    ensures SkillValidator.ValidateName(Some(Repeat('a', MaxNameLength))).isValid
    ensures SkillValidator.ValidateName(Some(Repeat('a', MaxNameLength + 1)))
      == SkillValidator.Failure(SkillValidator.NameTooLongMessage(MaxNameLength + 1))
  {
    var s := Repeat('a', MaxNameLength);
    assert SkillValidator.IsSkillName(s);
    SkillValidator.ValidateNameAccepts(Some(s));
    var t := Repeat('a', MaxNameLength + 1);
    Utf16LengthRepeat('a', MaxNameLength + 1);
    assert !IsBlank(t) by {
      assert !IsDotNetWhiteSpace(t[0]);
    }
  }

  /** A description of exactly `MaxDescriptionLength` characters is accepted; one more is refused. */
  lemma DescriptionLimitIsValidatorBoundary()
    ensures SkillValidator.ValidateDescription(Some(Repeat('a', MaxDescriptionLength))).isValid
    ensures !SkillValidator.ValidateDescription(Some(Repeat('a', MaxDescriptionLength + 1))).isValid
  {
    var s := Repeat('a', MaxDescriptionLength);
    assert !IsBlank(s) by {
      assert !IsDotNetWhiteSpace(s[0]);
    }
    Utf16LengthRepeat('a', MaxDescriptionLength);
    Utf16LengthRepeat('a', MaxDescriptionLength + 1);
  }

  /** A SKILL.md of exactly `MaxSkillFileSize` bytes is accepted; one byte more is refused. */
  lemma FileSizeLimitIsValidatorBoundary(path: string)
    ensures SkillValidator.ValidateSkillFile(path, Some(MaxSkillFileSize)).isValid
    ensures !SkillValidator.ValidateSkillFile(path, Some(MaxSkillFileSize + 1)).isValid
  {
  }

  // ---------------------------------------------------------------------
  // Properties of the derived members
  // ---------------------------------------------------------------------

  /**
   * The display line determines the skill's name and description when
   * names hold no `*` (skill names never do).
   */
  lemma DisplayStringInjective(m: SkillMetadata, n: SkillMetadata)
    requires Star !in m.name && Star !in n.name
    requires ToDisplayString(m) == ToDisplayString(n)
    ensures m.name == n.name && m.description == n.description
  {
    var d := ToDisplayString(m);
    if |m.name| < |n.name| {
      NameEndsAtStar(d, n, |m.name|);
    } else if |n.name| < |m.name| {
      NameEndsAtStar(d, m, |n.name|);
    }
    assert m.name == d[4..4 + |m.name|] == n.name;
  }

  /** A star-free name takes up the display string up to its first star. */
  lemma NameEndsAtStar(d: string, m: SkillMetadata, k: nat)
    requires Star !in m.name && d == ToDisplayString(m) && k < |m.name|
    ensures d[4 + k] != Star
  {
    assert d[4 + k] == d[4..4 + |m.name|][k] == m.name[k];
  }

  /** A valid skill name holds no star. */
  lemma SkillNameHasNoStar(w: string)
    requires SkillValidator.IsSkillName(w)
    ensures Star !in w
  {
    forall i | 0 <= i < |w|
      ensures w[i] != Star
    {
      assert SkillValidator.IsNameChar(w[i]);
    }
  }

  /** The SKILL.md path of a skill lies inside the skill's directory. */
  lemma SkillFileInsideSkillDirectory(cwd: Dir, m: SkillMetadata)
    requires !IsBlank(m.path) && FullSegments(cwd, m.path).Some?
    ensures IsPathSafe(cwd, SkillFilePath(m), m.path)
  {
    var f := SkillFilePath(m);
    var xs := FullSegments(cwd, m.path).value;
    SkillFileSegments(cwd, m);
    var a, b := LowerSegments(xs), LowerSegments(xs + [SkillFileName]);
    assert a == b[..|a|];
    IsPathSafeIsContainment(cwd, f, m.path);
  }

  /** The SKILL.md path normalises one segment below the skill's directory. */
  lemma SkillFileSegments(cwd: Dir, m: SkillMetadata)
    requires FullSegments(cwd, m.path).Some?
    ensures FullSegments(cwd, SkillFilePath(m)) == Some(FullSegments(cwd, m.path).value + [SkillFileName])
    ensures !IsBlank(SkillFilePath(m))
  {
    CombineSegment(cwd, m.path, SkillFileName);
    var f := SkillFilePath(m);
    assert !IsBlank(f) by {
      assert f[|f| - 1] == 'd';
    }
  }
}
