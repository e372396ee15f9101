/**
 * Entries of a skill's `allowed-tools` field (AutoBot `AllowedTool`):
 * exact tool names and `*`-glob patterns, and the parser of the
 * space-separated field.
 *
 * A pattern entry is compiled to the .NET regex `^` + escaped name + `$`
 * with every escaped `*` replaced by `.*`, case-insensitively. So `*` is
 * the only wildcard and matches any run of characters other than '\n'
 * (`.` does not match '\n'), every other character is literal, and the
 * closing `$` also matches just before a final '\n'.
 */
module AllowedTools {
  import opened Wrappers
  import opened Text

  const Star: char := '*'

  /** `AllowedTool(Name, IsPattern)`. */
  datatype AllowedTool = AllowedTool(name: string, isPattern: bool)

  predicate NewlineFree(w: string) {
    '\n' !in w
  }

  /** The body of the compiled pattern matched against the whole of `s`. */
  predicate GlobMatch(p: string, s: string)
    decreases |p| + |s|
  {
    if p == [] then s == []
    else if p[0] == Star then
      GlobMatch(p[1..], s) || (s != [] && s[0] != '\n' && GlobMatch(p, s[1..]))
    else s != [] && ToLowerChar(p[0]) == ToLowerChar(s[0]) && GlobMatch(p[1..], s[1..])
  }

  /** The regex of a pattern entry, with `$` matching at the end or before a final '\n'. */
  predicate PatternIsMatch(p: string, s: string) {
    GlobMatch(p, s) || (|s| > 0 && s[|s| - 1] == '\n' && GlobMatch(p, s[..|s| - 1]))
  }

  /** `Matches(toolName)`. */
  function Matches(t: AllowedTool, toolName: string): (r: bool)
    ensures !t.isPattern ==> (r <==> EqualsIgnoreCase(t.name, toolName))
    ensures t.isPattern ==> (r <==> PatternIsMatch(t.name, toolName))
  {
    if !t.isPattern then EqualsIgnoreCase(t.name, toolName)
    else PatternIsMatch(t.name, toolName)
  }

  // ---------------------------------------------------------------------
  // What a glob matches
  // ---------------------------------------------------------------------

  /** A literal (star-free) prefix of a pattern consumes an equal-ignoring-case prefix of the input. */
  lemma {:induction false} LiteralPrefix(a: string, b: string, s: string)
    requires Star !in a
    ensures GlobMatch(a + b, s) <==>
      |a| <= |s| && EqualsIgnoreCase(a, s[..|a|]) && GlobMatch(b, s[|a|..])
  {
    if a != [] {
      assert (a + b)[0] == a[0];
      assert (a + b)[1..] == a[1..] + b;
      if s != [] {
        LiteralPrefix(a[1..], b, s[1..]);
        if |a| <= |s| {
          assert s[1..][..|a| - 1] == s[..|a|][1..];
          assert s[1..][|a| - 1..] == s[|a|..];
          assert ToLower(a) == [ToLowerChar(a[0])] + ToLower(a[1..]);
          assert ToLower(s[..|a|]) == [ToLowerChar(s[0])] + ToLower(s[..|a|][1..]);
        }
      }
    } else {
      assert a + b == b;
      assert s[|a|..] == s;
    }
  }

  /** A star consumes any newline-free run of the input, the rest of the pattern the remainder. */
  lemma StarPrefix(b: string, s: string)
    ensures GlobMatch([Star] + b, s) <==>
      exists k :: 0 <= k <= |s| && NewlineFree(s[..k]) && GlobMatch(b, s[k..])
  {
    if GlobMatch([Star] + b, s) {
      StarRun(b, s);
    }
    if exists k :: 0 <= k <= |s| && NewlineFree(s[..k]) && GlobMatch(b, s[k..]) {
      var k :| 0 <= k <= |s| && NewlineFree(s[..k]) && GlobMatch(b, s[k..]);
      StarMatch(b, s, k);
    }
  }

  /** A star that matches has taken some newline-free run. */
  lemma {:induction false} StarRun(b: string, s: string)
    requires GlobMatch([Star] + b, s)
    ensures exists k :: 0 <= k <= |s| && NewlineFree(s[..k]) && GlobMatch(b, s[k..])
    decreases |s|
  {
    var p := [Star] + b;
    assert p[1..] == b;
    if GlobMatch(b, s) {
      assert s[..0] == [] && s[0..] == s;
    } else {
      assert s != [] && s[0] != '\n' && GlobMatch(p, s[1..]);
      StarRun(b, s[1..]);
      var k' :| 0 <= k' <= |s[1..]| && NewlineFree(s[1..][..k']) && GlobMatch(b, s[1..][k'..]);
      assert s[..k' + 1] == [s[0]] + s[1..][..k'];
      assert s[k' + 1..] == s[1..][k'..];
    }
  }

  /** A star can take any newline-free run that leaves a match for the rest. */
  lemma {:induction false} StarMatch(b: string, s: string, k: nat)
    requires k <= |s| && NewlineFree(s[..k]) && GlobMatch(b, s[k..])
    ensures GlobMatch([Star] + b, s)
    decreases k
  {
    var p := [Star] + b;
    assert p[1..] == b;
    if k == 0 {
      assert s[k..] == s;
    } else {
      assert s[0] == s[..k][0];
      assert s[1..][..k - 1] == s[..k][1..];
      assert s[1..][k - 1..] == s[k..];
      StarMatch(b, s[1..], k - 1);
    }
  }

  /** A pattern without stars matches exactly the strings equal to it ignoring case. */
  lemma LiteralGlob(p: string, s: string)
    requires Star !in p
    ensures GlobMatch(p, s) <==> EqualsIgnoreCase(p, s)
  {
    LiteralPrefix(p, [], s);
    assert p + [] == p;
    assert |p| <= |s| && GlobMatch([], s[|p|..]) ==> s[..|p|] == s;
  }

  /**
   * The meaning of the first star of a pattern: the literal text before it
   * matches ignoring case, the star takes any newline-free run, and the
   * rest of the pattern matches what remains.
   */
  lemma FirstStar(a: string, b: string, s: string)
    requires Star !in a
    ensures GlobMatch(a + [Star] + b, s) <==>
      && |a| <= |s| && EqualsIgnoreCase(a, s[..|a|])
      && exists k :: |a| <= k <= |s| && NewlineFree(s[|a|..k]) && GlobMatch(b, s[k..])
  {
    assert a + [Star] + b == a + ([Star] + b);
    LiteralPrefix(a, [Star] + b, s);
    if |a| <= |s| {
      ShiftedStar(b, s, |a|);
    }
  }

  /** `StarPrefix` on a suffix of `s`, with the star's run measured in positions of `s`. */
  lemma ShiftedStar(b: string, s: string, n: nat)
    requires n <= |s|
    ensures GlobMatch([Star] + b, s[n..]) <==>
      exists k :: n <= k <= |s| && NewlineFree(s[n..k]) && GlobMatch(b, s[k..])
  {
    if GlobMatch([Star] + b, s[n..]) {
      ShiftedStarRun(b, s, n);
    }
    if exists k :: n <= k <= |s| && NewlineFree(s[n..k]) && GlobMatch(b, s[k..]) {
      var k :| n <= k <= |s| && NewlineFree(s[n..k]) && GlobMatch(b, s[k..]);
      ShiftedStarMatch(b, s, n, k);
    }
  }

  lemma ShiftedStarRun(b: string, s: string, n: nat)
    requires n <= |s| && GlobMatch([Star] + b, s[n..])
    ensures exists k :: n <= k <= |s| && NewlineFree(s[n..k]) && GlobMatch(b, s[k..])
  {
    var t := s[n..];
    StarPrefix(b, t);
    var j :| 0 <= j <= |t| && NewlineFree(t[..j]) && GlobMatch(b, t[j..]);
    assert t[..j] == s[n..n + j] && t[j..] == s[n + j..];
  }

  lemma ShiftedStarMatch(b: string, s: string, n: nat, k: nat)
    requires n <= k <= |s| && NewlineFree(s[n..k]) && GlobMatch(b, s[k..])
    ensures GlobMatch([Star] + b, s[n..])
  {
    var t := s[n..];
    StarPrefix(b, t);
    assert t[..k - n] == s[n..k] && t[k - n..] == s[k..];
  }

  /** A parsed or hand-written entry marked as a pattern but without stars is still exact. */
  lemma StarFreePatternIsExact(t: AllowedTool, toolName: string)
    requires Star !in t.name
    ensures Matches(t, toolName) <==>
      || EqualsIgnoreCase(t.name, toolName)
      || (t.isPattern && |toolName| > 0 && toolName[|toolName| - 1] == '\n'
          && EqualsIgnoreCase(t.name, toolName[..|toolName| - 1]))
  {
    LiteralGlob(t.name, toolName);
    if |toolName| > 0 {
      LiteralGlob(t.name, toolName[..|toolName| - 1]);
    }
  }

  /** `execute_` in capitals folds to itself. */
  lemma ExecutePrefixFolds()
    ensures EqualsIgnoreCase("execute_", "EXECUTE_")
  {
    ToLowerIdentity("execute_");
    assert ToLower("EXECUTE_") == "execute_";
  }

  /** A star pattern matches case-insensitively. */
  lemma StarExample()
    ensures Matches(AllowedTool("execute_*", true), "EXECUTE_shell")
  {
    var p, s := "execute_", "EXECUTE_shell";
    assert "execute_*" == p + [Star] + [];
    FirstStar(p, [], s);
    assert s[..|p|] == "EXECUTE_";
    ExecutePrefixFolds();
    assert NewlineFree(s[|p|..|s|]);
    assert GlobMatch([], s[|s|..]);
  }

  /** Only `*` is a wildcard: `?` stands for itself. */
  lemma QuestionMarkIsLiteral()
    ensures !Matches(AllowedTool("read?", true), "readx")
  {
    LiteralGlob("read?", "readx");
    LiteralGlob("read?", "readx"[..4]);
    assert ToLower("read?")[4] == '?';
    assert ToLower("readx")[4] == 'x';
  }

  /** `.` does not stand for another character. */
  lemma DotIsNotWildcard()
    ensures !Matches(AllowedTool("ls.sh", true), "lsxsh")
  {
    LiteralGlob("ls.sh", "lsxsh");
    LiteralGlob("ls.sh", "lsxsh"[..4]);
    assert ToLower("ls.sh")[2] == '.';
    assert ToLower("lsxsh")[2] == 'x';
  }

  /** `.` matches itself, in any case of the surrounding letters. */
  lemma DotMatchesItself()
    ensures Matches(AllowedTool("ls.sh", true), "LS.SH")
  {
    LiteralGlob("ls.sh", "LS.SH");
    ToLowerIdentity("ls.sh");
    assert ToLower("LS.SH") == "ls.sh";
  }

  /** Only `*` is a wildcard: `.` stands for itself. */
  lemma DotIsLiteral()
    ensures !Matches(AllowedTool("ls.sh", true), "lsxsh")
    ensures Matches(AllowedTool("ls.sh", true), "LS.SH")
  {
    DotIsNotWildcard();
    DotMatchesItself();
  }

  // ---------------------------------------------------------------------
  // Parsing the allowed-tools field
  // ---------------------------------------------------------------------

  const Space: char := ' '

  /** The entry for one trimmed token: a pattern exactly when it holds a star. */
  function Entry(token: string): (t: AllowedTool)
    ensures t.name == token && (t.isPattern <==> Star in token)
  {
    AllowedTool(token, Star in token)
  }

  /**
   * A token as `Split` with `TrimEntries | RemoveEmptyEntries` keeps it:
   * not empty, no space, and no white space at either end.
   */
  predicate IsToken(x: string) {
    x != [] && Space !in x && !IsDotNetWhiteSpace(x[0]) && !IsDotNetWhiteSpace(x[|x| - 1])
  }

  /** Trimming a space-free part leaves a token or nothing. */
  lemma TrimIsToken(part: string)
    requires Space !in part
    ensures Trim(part, DotNet) != [] ==> IsToken(Trim(part, DotNet))
  {
    var ws := SpaceTest(DotNet);
    TrimWithSpec(part, ws);
    var r := TrimWith(part, ws);
    var i := TrimOffset(part, ws);
    forall k | 0 <= k < |r|
      ensures r[k] != Space
    {
      assert r[k] == part[i + k];
    }
  }

  /** The trimmed parts that are not empty, in order. */
  function Tokens(parts: seq<string>): (r: seq<string>)
    ensures |r| <= |parts|
  {
    if parts == [] then []
    else
      var token := Trim(parts[0], DotNet);
      (if token == [] then [] else [token]) + Tokens(parts[1..])
  }

  /** One entry per token, in order. */
  function EntriesOf(xs: seq<string>): (r: seq<AllowedTool>)
    ensures |r| == |xs| && forall i :: 0 <= i < |xs| ==> r[i] == Entry(xs[i])
  {
    seq(|xs|, i requires 0 <= i < |xs| => Entry(xs[i]))
  }

  /** The trimmed, non-empty parts, in order, as entries. */
  function Entries(parts: seq<string>): (r: seq<AllowedTool>)
    ensures |r| <= |parts|
    ensures forall i :: 0 <= i < |r| ==> r[i] == Entry(r[i].name)
  {
    EntriesOf(Tokens(parts))
  }

  /** Every kept part is a token: non-empty, space-free, trimmed. */
  lemma {:induction false} TokensAreTokens(parts: seq<string>)
    requires forall k :: 0 <= k < |parts| ==> Space !in parts[k]
    ensures forall i :: 0 <= i < |Tokens(parts)| ==> IsToken(Tokens(parts)[i])
  {
    if parts != [] {
      assert forall k :: 0 <= k < |parts| - 1 ==> parts[1..][k] == parts[k + 1];
      TokensAreTokens(parts[1..]);
      TrimIsToken(parts[0]);
      var token := Trim(parts[0], DotNet);
      var head: seq<string> := if token == [] then [] else [token];
      var rest := Tokens(parts[1..]);
      assert Tokens(parts) == head + rest;
      forall i | 0 <= i < |head + rest|
        ensures IsToken((head + rest)[i])
      {
        if i >= |head| {
          assert (head + rest)[i] == rest[i - |head|];
        }
      }
    }
  }

  /** Every entry's name is a token: non-empty, space-free, trimmed. */
  lemma EntriesAreTokens(parts: seq<string>)
    requires forall k :: 0 <= k < |parts| ==> Space !in parts[k]
    ensures forall i :: 0 <= i < |Entries(parts)| ==> IsToken(Entries(parts)[i].name)
  {
    TokensAreTokens(parts);
  }

  /** `AllowedTool.Parse`. */
  function Parse(field: Option<string>): (r: seq<AllowedTool>)
    ensures IsNullOrWhiteSpace(field) ==> r == []
    ensures forall i :: 0 <= i < |r| ==> r[i] == Entry(r[i].name)
  {
    if IsNullOrWhiteSpace(field) then [] else Entries(Split(field.value, Space))
  }

  /** Each parsed entry is a non-empty, space-free, trimmed token; patterns are the entries with a star. */
  lemma ParsedEntriesAreTokens(field: Option<string>)
    ensures forall i :: 0 <= i < |Parse(field)| ==>
      IsToken(Parse(field)[i].name) && (Parse(field)[i].isPattern <==> Star in Parse(field)[i].name)
  {
    if !IsNullOrWhiteSpace(field) {
      EntriesAreTokens(Split(field.value, Space));
    }
  }

  /** Splitting blank text leaves only blank pieces. */
  lemma {:induction false} BlankPieces(s: string)
    requires IsBlank(s)
    ensures forall k :: 0 <= k < |Split(s, Space)| ==> IsBlank(Split(s, Space)[k])
  {
    if s != [] {
      assert forall i :: 0 <= i < |s| - 1 ==> s[1..][i] == s[i + 1];
      BlankPieces(s[1..]);
      var rest := Split(s[1..], Space);
      if s[0] != Space {
        var head := [s[0]] + rest[0];
        assert forall i :: 1 <= i < |head| ==> head[i] == rest[0][i - 1];
        assert IsBlank(head);
        assert forall k :: 1 <= k < |rest| ==> rest[1..][k - 1] == rest[k];
      }
    }
  }

  /** Blank parts give no tokens. */
  lemma {:induction false} TokensOfBlank(parts: seq<string>)
    requires forall k :: 0 <= k < |parts| ==> IsBlank(parts[k])
    ensures Tokens(parts) == []
  {
    if parts != [] {
      TrimEmptyIffSpace(parts[0], DotNet);
      assert forall k :: 0 <= k < |parts| - 1 ==> parts[1..][k] == parts[k + 1];
      TokensOfBlank(parts[1..]);
    }
  }

  /** Tokens are taken part by part. */
  lemma {:induction false} TokensAppend(a: seq<string>, b: seq<string>)
    ensures Tokens(a + b) == Tokens(a) + Tokens(b)
  {
    if a == [] {
      assert a + b == b;
    } else {
      assert (a + b)[0] == a[0] && (a + b)[1..] == a[1..] + b;
      TokensAppend(a[1..], b);
      var token := Trim(a[0], DotNet);
      var head: seq<string> := if token == [] then [] else [token];
      ConcatAssociative(head, Tokens(a[1..]), Tokens(b));
    }
  }

  /** The null-or-blank guard only short-cuts: parsing any text is its tokens as entries. */
  lemma ParseText(s: string)
    ensures Parse(Some(s)) == Entries(Split(s, Space))
  {
    if IsBlank(s) {
      BlankPieces(s);
      TokensOfBlank(Split(s, Space));
    }
  }

  /**
   * A space cuts the field into two fields parsed on their own, so runs
   * of spaces and padding around tokens add no entries and every
   * non-blank piece gives exactly its own entries, in order.
   */
  lemma ParseAtSpace(a: string, b: string)
    ensures Parse(Some(a + [Space] + b)) == Parse(Some(a)) + Parse(Some(b))
  {
    ParseText(a);
    ParseText(b);
    ParseText(a + [Space] + b);
    SplitConcat(a, b, Space);
    TokensAppend(Split(a, Space), Split(b, Space));
    EntriesOfAppend(Tokens(Split(a, Space)), Tokens(Split(b, Space)));
  }

  /** Entries are made token by token. */
  lemma EntriesOfAppend(x: seq<string>, y: seq<string>)
    ensures EntriesOf(x + y) == EntriesOf(x) + EntriesOf(y)
  {
    assert forall i :: 0 <= i < |x + y| ==> EntriesOf(x + y)[i] == (EntriesOf(x) + EntriesOf(y))[i];
  }

  /** Parts that are already tokens are all kept, unchanged. */
  lemma {:induction false} TokensOfTokens(xs: seq<string>)
    requires forall k :: 0 <= k < |xs| ==> IsToken(xs[k])
    ensures Tokens(xs) == xs
  {
    if xs != [] {
      TokensTail(xs);
      TokensOfTokens(xs[1..]);
      TokenKept(xs);
      assert [xs[0]] + xs[1..] == xs;
    }
  }

  /** A leading token is kept as it is. */
  lemma TokenKept(xs: seq<string>)
    requires xs != [] && IsToken(xs[0])
    ensures Tokens(xs) == [xs[0]] + Tokens(xs[1..])
  {
    TrimOfTrimmed(xs[0], DotNet);
  }

  lemma TokensTail(xs: seq<string>)
    requires xs != [] && forall k :: 0 <= k < |xs| ==> IsToken(xs[k])
    ensures forall k :: 0 <= k < |xs| - 1 ==> IsToken(xs[1..][k])
  {
    assert forall k :: 0 <= k < |xs| - 1 ==> xs[1..][k] == xs[k + 1];
  }

  lemma JoinStartsWithFirst(xs: seq<string>, sep: string)
    requires |xs| >= 1 && xs[0] != []
    ensures |Join(xs, sep)| > 0 && Join(xs, sep)[0] == xs[0][0]
  {
  }

  /**
   * Parsing tokens joined by single spaces gives one entry per token, in
   * order, each a pattern exactly when it holds a star.
   */
  lemma ParseJoin(xs: seq<string>)
    requires forall k :: 0 <= k < |xs| ==> IsToken(xs[k])
    ensures Parse(Some(Join(xs, [Space]))) == EntriesOf(xs)
  {
    if xs == [] {
      assert Join(xs, [Space]) == "";
    } else {
      JoinStartsWithFirst(xs, [Space]);
      assert !IsBlank(Join(xs, [Space]));
      SplitJoin(xs, Space);
      TokensOfTokens(xs);
    }
  }
}
