/**
 * Validation of skill names, descriptions and SKILL.md files
 * (AutoBot `SkillValidator` and `SkillValidationResult`).
 *
 * The compiled name pattern is modelled by its .NET meaning: `^` anchors
 * at the start of the input and `$` (without the Multiline option) matches
 * at the end of the input or just before a final '\n'.
 */
module SkillValidator {
  import opened Wrappers
  import opened Text

  const MaxNameLength: nat := 64
  const MaxDescriptionLength: nat := 1024
  const MaxSkillFileSize: nat := 10 * 1024 * 1024
  const Mebibyte: nat := 1024 * 1024

  /** `SkillValidationResult`: a validity flag and an optional error message. */
  datatype ValidationResult = ValidationResult(isValid: bool, errorMessage: Option<string>)

  /** The invariant the two private factories establish. */
  predicate WellFormed(r: ValidationResult) {
    r.isValid <==> r.errorMessage.None?
  }

  function Success(): (r: ValidationResult)
    ensures r.isValid && WellFormed(r)
  {
    ValidationResult(true, None)
  }

  function Failure(message: string): (r: ValidationResult)
    ensures !r.isValid && r.errorMessage == Some(message) && WellFormed(r)
  {
    ValidationResult(false, Some(message))
  }

  // ---------------------------------------------------------------------
  // The name pattern ^[a-z0-9][a-z0-9\-]{0,62}[a-z0-9]$|^[a-z0-9]$
  // ---------------------------------------------------------------------

  /** `[a-z0-9]` */
  predicate IsNameEnd(c: char) { IsAsciiLower(c) || IsAsciiDigit(c) }

  /** `[a-z0-9\-]` */
  predicate IsNameChar(c: char) { IsNameEnd(c) || c == '-' }

  /** `$` of .NET at position `n`: the end of `s`, or just before a final '\n'. */
  predicate DollarAt(s: string, n: int) {
    n == |s| || (n == |s| - 1 && 0 <= n && s[n] == '\n')
  }

  /** The first alternative, consuming `s[..n]`. */
  predicate LongAlternativeAt(s: string, n: int) {
    && 2 <= n <= 64 && n <= |s|
    && IsNameEnd(s[0])
    && (forall i :: 1 <= i < n - 1 ==> IsNameChar(s[i]))
    && IsNameEnd(s[n - 1])
    && DollarAt(s, n)
  }

  /** The second alternative, consuming `s[..1]`. */
  predicate ShortAlternativeAt(s: string, n: int) {
    n == 1 && |s| >= 1 && IsNameEnd(s[0]) && DollarAt(s, 1)
  }

  /** `SkillNamePattern().IsMatch(s)`; both alternatives are anchored at the start. */
  predicate NamePatternIsMatch(s: string) {
    exists n | 0 <= n <= |s| :: LongAlternativeAt(s, n) || ShortAlternativeAt(s, n)
  }

  /**
   * A skill name in the sense of the Agent Skills rules: 1 to 64 characters
   * from `[a-z0-9-]`, starting and ending with a letter or digit.
   */
  predicate IsSkillName(w: string) {
    && 1 <= |w| <= MaxNameLength
    && (forall i :: 0 <= i < |w| ==> IsNameChar(w[i]))
    && IsNameEnd(w[0]) && IsNameEnd(w[|w| - 1])
  }

  /** `s` minus one final '\n', when it has one. */
  predicate IsSkillNameWithNewline(s: string) {
    |s| >= 1 && s[|s| - 1] == '\n' && IsSkillName(s[..|s| - 1])
  }

  /** The pattern accepts exactly the skill names, optionally followed by one '\n'. */
  lemma NamePatternMeaning(s: string)
    ensures NamePatternIsMatch(s) <==> IsSkillName(s) || IsSkillNameWithNewline(s)
  {
    if IsSkillName(s) {
      if |s| == 1 {
        assert ShortAlternativeAt(s, 1);
      } else {
        assert LongAlternativeAt(s, |s|);
      }
    }
    if IsSkillNameWithNewline(s) {
      var w := s[..|s| - 1];
      assert forall i :: 0 <= i < |w| ==> s[i] == w[i];
      if |w| == 1 {
        assert ShortAlternativeAt(s, 1);
      } else {
        assert LongAlternativeAt(s, |w|);
      }
    }
    if NamePatternIsMatch(s) {
      var n :| 0 <= n <= |s| && (LongAlternativeAt(s, n) || ShortAlternativeAt(s, n));
      if n < |s| {
        var w := s[..n];
        assert s[..|s| - 1] == w;
        assert IsSkillName(w);
      } else {
        assert IsSkillName(s);
      }
    }
  }

  /** A skill name has no white space at its first character, so it is never blank. */
  lemma SkillNameNotBlank(w: string)
    requires IsSkillName(w)
    ensures !IsBlank(w) && !IsBlank(w + "\n")
  {
    assert (w + "\n")[0] == w[0];
  }

  // ---------------------------------------------------------------------
  // The validators
  // ---------------------------------------------------------------------

  const NameEmptyMessage: string := "Skill name cannot be null or empty."
  const NamePatternMessage: string :=
    "Skill name must contain only lowercase letters, numbers, and hyphens. "
    + "Must start and end with a letter or number."
  const DescriptionEmptyMessage: string := "Skill description cannot be null or empty."

  function NameTooLongMessage(length: nat): string {
    "Skill name exceeds maximum length of 64 characters. Actual: " + NatToString(length)
  }

  function DescriptionTooLongMessage(length: nat): string {
    "Skill description exceeds maximum length of 1024 characters. Actual: " + NatToString(length)
  }

  /** A skill name is ASCII, so its .NET length is its number of characters. */
  lemma SkillNameLength(w: string)
    requires IsSkillName(w)
    ensures Utf16Length(w) == |w| && Utf16Length(w + "\n") == |w| + 1
  {
    assert IsBmp(w);
    Utf16LengthBmp(w);
    assert IsBmp(w + "\n");
    Utf16LengthBmp(w + "\n");
  }

  lemma SkillNameUnits(w: string)
    ensures IsSkillName(w) ==> Utf16Length(w) == |w|
  {
    if IsSkillName(w) {
      SkillNameLength(w);
    }
  }

  /**
   * `ValidateName`: blank, then length, then pattern; the first failing
   * check decides the message. The length is the .NET `Length`, in UTF-16
   * code units.
   */
  function ValidateName(name: Option<string>): (r: ValidationResult)
    ensures WellFormed(r)
    ensures IsNullOrWhiteSpace(name) ==> r == Failure(NameEmptyMessage)
    ensures !IsNullOrWhiteSpace(name) && Utf16Length(name.value) > MaxNameLength ==>
              r == Failure(NameTooLongMessage(Utf16Length(name.value)))
    ensures (&& !IsNullOrWhiteSpace(name) && Utf16Length(name.value) <= MaxNameLength
             && !NamePatternIsMatch(name.value)) ==> r == Failure(NamePatternMessage)
  {
    if IsNullOrWhiteSpace(name) then Failure(NameEmptyMessage)
    else if Utf16Length(name.value) > MaxNameLength then Failure(NameTooLongMessage(Utf16Length(name.value)))
    else if !NamePatternIsMatch(name.value) then Failure(NamePatternMessage)
    else Success()
  }

  /**
   * The names `ValidateName` accepts: skill names, and (because of `$`)
   * skill names of at most 63 characters followed by one '\n'.
   */
  lemma ValidateNameAccepts(name: Option<string>)
    ensures ValidateName(name).isValid <==>
      name.Some? && |name.value| <= MaxNameLength
      && (IsSkillName(name.value) || IsSkillNameWithNewline(name.value))
  {
    if name.Some? {
      var s := name.value;
      NamePatternMeaning(s);
      if IsSkillName(s) {
        SkillNameNotBlank(s);
        SkillNameLength(s);
      }
      if IsSkillNameWithNewline(s) {
        SkillNameNotBlank(s[..|s| - 1]);
        assert s == s[..|s| - 1] + "\n";
        SkillNameLength(s[..|s| - 1]);
      }
    }
  }

  /** `ValidateName` with `$` read as the end of the input only. */
  function ValidateNameStrict(name: Option<string>): (r: ValidationResult)
    ensures WellFormed(r)
    ensures r.isValid <==> name.Some? && IsSkillName(name.value)
  {
    if IsNullOrWhiteSpace(name) then Failure(NameEmptyMessage)
    else
      SkillNameUnits(name.value);
      if Utf16Length(name.value) > MaxNameLength then Failure(NameTooLongMessage(Utf16Length(name.value)))
      else if !IsSkillName(name.value) then Failure(NamePatternMessage)
      else Success()
  }

  /** "abc\n" passes `ValidateName` although it is not a skill name. */
  lemma TrailingNewlineAccepted()
    ensures ValidateName(Some("abc\n")).isValid
    ensures !ValidateNameStrict(Some("abc\n")).isValid
  {
    var s := "abc\n";
    assert s[..|s| - 1] == "abc";
    assert IsSkillName("abc");
    ValidateNameAccepts(Some(s));
  }

  /** The two readings disagree on nothing but a trailing newline. */
  lemma StrictAgreesWithoutNewline(name: Option<string>)
    requires name.Some? ==> |name.value| == 0 || name.value[|name.value| - 1] != '\n'
    ensures ValidateName(name).isValid <==> ValidateNameStrict(name).isValid
  {
    ValidateNameAccepts(name);
  }

  /** Single-character names and consecutive hyphens are allowed; edges must not be hyphens. */
  lemma NameExamples()
    ensures ValidateName(Some("a")).isValid
    ensures ValidateName(Some("pdf--tools")).isValid
    ensures !ValidateName(Some("-pdf")).isValid
    ensures !ValidateName(Some("Pdf")).isValid
  {
    assert IsSkillName("a") && IsSkillName("pdf--tools");
    SkillNameAccepted("a");
    SkillNameAccepted("pdf--tools");
    BadFirstCharacterRejected("-pdf");
    BadFirstCharacterRejected("Pdf");
  }

  lemma SkillNameAccepted(w: string)
    requires IsSkillName(w)
    ensures ValidateName(Some(w)).isValid
  {
    ValidateNameAccepts(Some(w));
  }

  lemma BadFirstCharacterRejected(w: string)
    requires w != [] && !IsNameEnd(w[0])
    ensures !ValidateName(Some(w)).isValid
  {
    ValidateNameAccepts(Some(w));
    if |w| >= 2 {
      assert w[..|w| - 1][0] == w[0];
    }
  }

  /** `ValidateNameMatchesDirectory`: an ordinal, case-insensitive comparison. */
  function ValidateNameMatchesDirectory(skillName: string, directoryName: string): (r: ValidationResult)
    ensures WellFormed(r)
    ensures r.isValid <==> EqualsIgnoreCase(skillName, directoryName)
    ensures !r.isValid ==>
      r.errorMessage == Some("Skill name '" + skillName + "' does not match directory name '"
                             + directoryName + "'.")
  {
    if !EqualsIgnoreCase(skillName, directoryName) then
      Failure("Skill name '" + skillName + "' does not match directory name '" + directoryName + "'.")
    else Success()
  }

  /** `ValidateDescription`: non-blank and at most 1024 UTF-16 code units. */
  function ValidateDescription(description: Option<string>): (r: ValidationResult)
    ensures WellFormed(r)
    ensures r.isValid <==>
      description.Some? && !IsBlank(description.value) && Utf16Length(description.value) <= MaxDescriptionLength
    ensures IsNullOrWhiteSpace(description) ==> r == Failure(DescriptionEmptyMessage)
    ensures !IsNullOrWhiteSpace(description) && Utf16Length(description.value) > MaxDescriptionLength ==>
              r == Failure(DescriptionTooLongMessage(Utf16Length(description.value)))
  {
    if IsNullOrWhiteSpace(description) then Failure(DescriptionEmptyMessage)
    else if Utf16Length(description.value) > MaxDescriptionLength then
      Failure(DescriptionTooLongMessage(Utf16Length(description.value)))
    else Success()
  }

  /** A character outside the BMP, two UTF-16 code units. */
  const Astral: char := '\U{1F600}'

  /** 33 characters outside the BMP are 66 code units: too long a name, whatever the pattern says. */
  lemma AstralNameIsTooLong()
    ensures ValidateName(Some(Repeat(Astral, 33))) == Failure(NameTooLongMessage(66))
  {
    Utf16LengthRepeat(Astral, 33);
    assert !IsBlank(Repeat(Astral, 33)) by {
      assert !IsDotNetWhiteSpace(Repeat(Astral, 33)[0]);
    }
  }

  /** 513 characters outside the BMP are 1026 code units: too long a description. */
  lemma AstralDescriptionIsTooLong()
    ensures !ValidateDescription(Some(Repeat(Astral, 513))).isValid
  {
    Utf16LengthRepeat(Astral, 513);
  }

  // ---------------------------------------------------------------------
  // SKILL.md file checks
  // ---------------------------------------------------------------------

  const FileTooLargeMessage: string := "SKILL.md file exceeds maximum size of 10 MB. Actual: "

  /** `{v:F2}` of a whole number: the digits and ".00". */
  function WholeF2(v: nat): string {
    NatToString(v) + ".00"
  }

  /**
   * `ValidateSkillFile`. The file system is a parameter: `size` is `None`
   * when no file exists at `path`, else the file's length in bytes. The
   * size in the message is the integer quotient by 1 MiB, as written.
   */
  function ValidateSkillFile(path: string, size: Option<nat>): (r: ValidationResult)
    ensures WellFormed(r)
    ensures r.isValid <==> size.Some? && size.value <= MaxSkillFileSize
    ensures size.None? ==> r.errorMessage == Some("SKILL.md file not found at: " + path)
    ensures size.Some? && size.value > MaxSkillFileSize ==>
      r.errorMessage == Some(FileTooLargeMessage
                             + WholeF2(size.value / Mebibyte) + " MB")
  {
    match size
    case None => Failure("SKILL.md file not found at: " + path)
    case Some(length) =>
      if length > MaxSkillFileSize then
        Failure(FileTooLargeMessage + WholeF2(length / Mebibyte) + " MB")
      else Success()
  }

  lemma TenText()
    ensures NatToString(10) == "10"
  {
    assert NatToString(1) == [DigitChar(1)] == "1";
    assert DigitChar(0) == '0';
  }

  /** A 10.5 MiB file is reported as "10.00 MB": the fraction is lost before formatting. */
  lemma FileSizeMessageTruncates()
    ensures ValidateSkillFile("SKILL.md", Some(11010048)).errorMessage
      == Some(FileTooLargeMessage + "10.00 MB")
  {
    assert 11010048 / Mebibyte == 10;
    TenText();
    var text := WholeF2(10);
    assert text == "10.00";
    assert 11010048 > MaxSkillFileSize;
    assert ValidateSkillFile("SKILL.md", Some(11010048)).errorMessage
      == Some(FileTooLargeMessage + text + " MB");
    assert text + " MB" == "10.00 MB";
    assert FileTooLargeMessage + text + " MB" == FileTooLargeMessage + (text + " MB");
  }

  /** The size in MiB rounded to hundredths, as `F2` of a floating-point quotient would show it. */
  function SizeInHundredths(size: nat): (h: nat)
    ensures h * Mebibyte <= size * 100 + Mebibyte / 2 < (h + 1) * Mebibyte
  {
    (size * 100 + Mebibyte / 2) / Mebibyte
  }

  /** The decimal text of `h` hundredths with two fraction digits. */
  function HundredthsF2(h: nat): string {
    NatToString(h / 100) + "." + [DigitChar(h % 100 / 10), DigitChar(h % 10)]
  }

  /** `ValidateSkillFile` with the size divided as a real number before formatting. */
  function ValidateSkillFileExact(path: string, size: Option<nat>): (r: ValidationResult)
    ensures WellFormed(r)
    ensures r.isValid <==> size.Some? && size.value <= MaxSkillFileSize
    ensures size.Some? && size.value > MaxSkillFileSize ==>
      r.errorMessage == Some(FileTooLargeMessage
                             + HundredthsF2(SizeInHundredths(size.value)) + " MB")
  {
    match size
    case None => Failure("SKILL.md file not found at: " + path)
    case Some(length) =>
      if length > MaxSkillFileSize then
        Failure(FileTooLargeMessage
                + HundredthsF2(SizeInHundredths(length)) + " MB")
      else Success()
  }

  /** A 10.5 MiB file is reported as "10.50 MB". */
  lemma FileSizeMessageExact()
    ensures ValidateSkillFileExact("SKILL.md", Some(11010048)).errorMessage
      == Some(FileTooLargeMessage + "10.50 MB")
  {
    assert SizeInHundredths(11010048) == 1050;
    TenText();
    assert DigitChar(5) == '5' && DigitChar(0) == '0';
    var text := HundredthsF2(1050);
    assert text == "10.50";
    assert 11010048 > MaxSkillFileSize;
    assert ValidateSkillFileExact("SKILL.md", Some(11010048)).errorMessage
      == Some(FileTooLargeMessage + text + " MB");
    assert text + " MB" == "10.50 MB";
    assert FileTooLargeMessage + text + " MB" == FileTooLargeMessage + (text + " MB");
  }
}
