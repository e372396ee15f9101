/**
 * The skills section of the system prompt (AutoBot
 * `SkillsSystemPromptTemplates`): the list of skills and its substitution
 * into the fixed template.
 */
module PromptTemplates {
  import opened Text
  import opened Skills
  import opened Catalog

  const Placeholder: string := "{skills_list}"
  const NoSkillsText: string := "*No skills available.*"
  const LineSeparator: char := '\n'

  /** The template text before the placeholder. */
  const TemplateHeader: string := @"## Skills System

You have access to a skills library that provides specialized capabilities and domain knowledge.

**Available Skills:**

"

  /** The template text after the placeholder. */
  const TemplateInstructions: string := @"

---

### How to Use Skills (Progressive Disclosure) - CRITICAL

Skills follow a **progressive disclosure** pattern - you know they exist (name + description above),
but you **MUST read the full instructions before using them**.

**MANDATORY Workflow:**

1. **Recognize when a skill applies**: Check if the user's task matches any skill's description above
2. **Read the skill's full instructions FIRST**: Use `read_skill` tool to get the complete SKILL.md content
   - This tells you exactly what scripts exist, their parameters, and how to use them
   - **NEVER assume or guess script names, paths, or arguments**
3. **Follow the skill's instructions precisely**: SKILL.md contains step-by-step workflows and examples
4. **Execute scripts only after reading**: Use the exact script paths and argument formats from SKILL.md

**IMPORTANT RULES:**

⚠️ **NEVER execute skill scripts without first reading the skill with `read_skill`**
- You do NOT know what scripts exist in a skill until you read it
- You do NOT know the correct script arguments until you read the SKILL.md
- Guessing script names will fail - always read first

✅ **Correct Workflow Example:**
```
User: ""Split this PDF into pages""
1. Recognize: ""split-pdf"" skill matches this task
2. Call: read_skill(""split-pdf"") -> Get full instructions
3. Learn: SKILL.md shows the actual script path and argument format
4. Execute: Use the exact command format from SKILL.md
```

❌ **Wrong Workflow (DO NOT DO THIS):**
```
User: ""Split this PDF into pages""
1. Recognize: ""split-pdf"" skill matches this task
2. Guess command/script names before reading SKILL.md <- WRONG! Never guess!
```

**Skills are Self-Documenting:**
- Each SKILL.md tells you exactly what the skill does and how to use it
- The skill may contain Python scripts, config files, or reference docs
- Always use the exact paths and formats specified in SKILL.md

Remember: **Read first, then execute.** This ensures you use skills correctly!"

  /** `SystemPromptTemplate`: the placeholder appears once, between the header and the instructions. */
  const SystemPromptTemplate: string := TemplateHeader + Placeholder + TemplateInstructions

  // ---------------------------------------------------------------------
  // Ordinal `string.Replace`
  // ---------------------------------------------------------------------

  /** `s.Replace(pat, rep)`: every occurrence, scanned left to right without overlaps, in one pass. */
  function Replace(s: string, pat: string, rep: string): string
    requires pat != []
    decreases |s|
  {
    if |s| < |pat| then s
    else if s[..|pat|] == pat then rep + Replace(s[|pat|..], pat, rep)
    else [s[0]] + Replace(s[1..], pat, rep)
  }

  /** Text that does not hold the first character of `pat` is copied unchanged. */
  lemma {:induction false} ReplaceSkipsFree(a: string, b: string, pat: string, rep: string)
    requires pat != [] && pat[0] !in a
    ensures Replace(a + b, pat, rep) == a + Replace(b, pat, rep)
  {
    if a != [] {
      var s := a + b;
      assert s[0] == a[0];
      if |s| >= |pat| {
        assert s[..|pat|][0] == a[0];
      } else {
        ReplaceShort(b, pat, rep);
      }
      assert s[1..] == a[1..] + b;
      ReplaceSkipsFree(a[1..], b, pat, rep);
    } else {
      assert a + b == b;
    }
  }

  lemma ReplaceShort(s: string, pat: string, rep: string)
    requires pat != [] && |s| < |pat|
    ensures Replace(s, pat, rep) == s
  {
  }

  /** A leading occurrence is replaced and scanning resumes after it. */
  lemma ReplaceLeading(pat: string, b: string, rep: string)
    requires pat != []
    ensures Replace(pat + b, pat, rep) == rep + Replace(b, pat, rep)
  {
    assert (pat + b)[..|pat|] == pat;
    assert (pat + b)[|pat|..] == b;
  }

  /**
   * Substitution is a single pass: with no `{` around the placeholder, the
   * result is the header, the inserted text as it is (even when it holds the
   * placeholder itself), then the instructions.
   */
  lemma ReplacePlaceholderOnce(header: string, instructions: string, x: string)
    requires '{' !in header && '{' !in instructions
    ensures Replace(header + Placeholder + instructions, Placeholder, x) == header + x + instructions
  {
    assert header + Placeholder + instructions == header + (Placeholder + instructions);
    ReplaceSkipsFree(header, Placeholder + instructions, Placeholder, x);
    ReplaceLeading(Placeholder, instructions, x);
    assert instructions == instructions + [];
    ReplaceSkipsFree(instructions, [], Placeholder, x);
  }

  // ---------------------------------------------------------------------
  // The list of skills and the prompt
  // ---------------------------------------------------------------------

  /** The display line of each skill, in order. */
  function DisplayLines(skills: seq<SkillMetadata>): (r: seq<string>)
    ensures |r| == |skills| && forall i :: 0 <= i < |skills| ==> r[i] == ToDisplayString(skills[i])
  {
    seq(|skills|, i requires 0 <= i < |skills| => ToDisplayString(skills[i]))
  }

  /** Single-line names and descriptions throughout. */
  predicate SingleLine(skills: seq<SkillMetadata>) {
    forall i :: 0 <= i < |skills| ==>
      LineSeparator !in skills[i].name && LineSeparator !in skills[i].description
  }

  /**
   * `GenerateSkillsList`: the "no skills" notice exactly when there are no
   * skills; otherwise one display line per skill, in order, so that with
   * single-line skills splitting at '\n' gives the lines back.
   */
  function GenerateSkillsList(skills: seq<SkillMetadata>): (r: string)
    ensures r == NoSkillsText <==> skills == []
    ensures skills != [] ==> r == Join(DisplayLines(skills), [LineSeparator])
    ensures skills != [] && SingleLine(skills) ==> Split(r, LineSeparator) == DisplayLines(skills)
  {
    if |skills| == 0 then NoSkillsText
    else
      ListIsNotNotice(skills);
      ListSplitsIntoLines(skills);
      Join(DisplayLines(skills), [LineSeparator])
  }

  /**
   * `GenerateSystemPrompt` over a template made of `header`, the
   * placeholder and `instructions` (the source's is `SystemPromptTemplate`):
   * when neither fixed part holds a `{`, the placeholder is found only
   * where it was put, and the prompt is the header, the list, then the
   * instructions.
   */
  function GenerateSystemPromptWith(header: string, instructions: string, st: SkillsState): (r: string)
    ensures '{' !in header && '{' !in instructions ==>
      r == header + GenerateSkillsList(AllSkills(st)) + instructions
  {
    var list := GenerateSkillsList(AllSkills(st));
    if '{' !in header && '{' !in instructions then
      ReplacePlaceholderOnce(header, instructions, list);
      Replace(header + Placeholder + instructions, Placeholder, list)
    else
      Replace(header + Placeholder + instructions, Placeholder, list)
  }

  /** `GenerateSystemPrompt`; the skills listed are `AllSkills`. */
  function GenerateSystemPrompt(st: SkillsState): string {
    GenerateSystemPromptWith(TemplateHeader, TemplateInstructions, st)
  }

  /** A display line is free of line breaks when the name and description are. */
  lemma DisplayLineHasNoBreak(m: SkillMetadata)
    requires LineSeparator !in m.name && LineSeparator !in m.description
    ensures LineSeparator !in ToDisplayString(m)
  {
  }

  /** With single-line names and descriptions, the joined lines split back into one line per skill. */
  lemma ListSplitsIntoLines(skills: seq<SkillMetadata>)
    requires skills != []
    ensures SingleLine(skills) ==>
      Split(Join(DisplayLines(skills), [LineSeparator]), LineSeparator) == DisplayLines(skills)
  {
    if SingleLine(skills) {
      var lines := DisplayLines(skills);
      forall k | 0 <= k < |lines|
        ensures LineSeparator !in lines[k]
      {
        DisplayLineHasNoBreak(skills[k]);
      }
      SplitJoin(lines, LineSeparator);
    }
  }

  /** A non-empty list starts with a display line's '-', so it is never the "no skills" text. */
  lemma ListIsNotNotice(skills: seq<SkillMetadata>)
    requires skills != []
    ensures Join(DisplayLines(skills), [LineSeparator]) != NoSkillsText
  {
    var lines := DisplayLines(skills);
    var r := Join(lines, [LineSeparator]);
    assert |lines[0]| > 0 && lines[0][0] == '-';
    assert r[0] == '-' by {
      if |lines| == 1 {
        assert r == lines[0];
      } else {
        assert r == lines[0] + [LineSeparator] + Join(lines[1..], [LineSeparator]);
      }
    }
    assert NoSkillsText[0] == '*';
  }

}
