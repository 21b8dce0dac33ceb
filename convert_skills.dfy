/**
 * The skill converter: every `SKILL.md` is validated (name and description
 * rules, directory-name agreement, an activation-trigger hint) and, unless
 * only validation was asked for, its directory is copied under the
 * destination. Reading and copying files are left to the caller; the model
 * computes the validation record and the destination the copy would use.
 */
module ConvertSkills {
  import opened Text
  import opened Yaml
  import Frontmatter

  // ---------------------------------------------------------------------------
  // validateSkillName / validateDescription

  predicate NameChar(c: char) { IsLowerAscii(c) || IsDigit(c) }

  /** The regular expression `^[a-z0-9]+(-[a-z0-9]+)*$` as a recogniser: a name
      character, then either the end, more of the same run, or a hyphen that
      starts a new run. */
  predicate MatchesNamePattern(s: string)
    decreases |s|
  {
    |s| > 0 && NameChar(s[0]) &&
    (|s| == 1 ||
     (NameChar(s[1]) && MatchesNamePattern(s[1..])) ||
     (s[1] == '-' && MatchesNamePattern(s[2..])))
  }

  /** The naming rule in words: non-empty, lower-case letters, digits and
      hyphens only, no hyphen at either end and no two hyphens in a row. */
  predicate WellFormedName(s: string) {
    && |s| > 0
    && (forall i :: 0 <= i < |s| ==> NameChar(s[i]) || s[i] == '-')
    && s[0] != '-'
    && s[|s| - 1] != '-'
    && (forall i :: 0 <= i < |s| - 1 ==> !(s[i] == '-' && s[i + 1] == '-'))
  }

  /** The regular expression accepts exactly the well-formed names. */
  lemma {:induction false} NamePatternIffWellFormed(s: string)
    ensures MatchesNamePattern(s) <==> WellFormedName(s)
    decreases |s|
  {
    if |s| >= 2 {
      NamePatternIffWellFormed(s[1..]);
      NamePatternIffWellFormed(s[2..]);
      if MatchesNamePattern(s) {
        if NameChar(s[1]) && MatchesNamePattern(s[1..]) {
          assert forall i :: 1 <= i < |s| ==> s[i] == s[1..][i - 1];
        } else {
          assert forall i :: 2 <= i < |s| ==> s[i] == s[2..][i - 2];
        }
      } else if WellFormedName(s) {
        if NameChar(s[1]) {
          assert forall i :: 0 <= i < |s| - 1 ==> s[1..][i] == s[i + 1];
          assert WellFormedName(s[1..]);
        } else {
          assert s[1] == '-' && s[2] != '-';
          assert forall i :: 0 <= i < |s| - 2 ==> s[2..][i] == s[i + 2];
          assert WellFormedName(s[2..]);
        }
      }
    }
  }

  /** `v.length`: the length of a string or of an array; other values have none
      (`undefined`, which compares false against any number). */
  function LengthOf(v: Value): Option<nat> {
    match v
    case Str(s) => Some(|s|)
    case List(items) => Some(|items|)
    case Object(_) => None
    case Scalar(_, _) => None
  }

  const NameRequired := "Name is required"
  const NamePatternError := "Name must be lowercase alphanumeric with single hyphen separators"
  const DescriptionRequired := "Description is required"

  function NameLengthError(n: nat): string {
    "Name must be 1-64 characters (got " + NatToString(n) + ")"
  }

  function DescriptionLengthError(n: nat): string {
    "Description must be 1-1024 characters (got " + NatToString(n) + ")"
  }

  predicate OutOfRange(len: Option<nat>, max: nat) {
    len.Some? && (len.value < 1 || len.value > max)
  }

  /** `validateSkillName(name)`: the first rule the value breaks, or `None`. The
      pattern is tested against `String(name)`. */
  function ValidateSkillName(v: Value): (r: Option<string>)
    ensures r.None? ==> Truthy(v) && MatchesNamePattern(ToText(v))
  {
    if !Truthy(v) then Some(NameRequired)
    else if OutOfRange(LengthOf(v), 64) then Some(NameLengthError(LengthOf(v).value))
    else if !MatchesNamePattern(ToText(v)) then Some(NamePatternError)
    else None
  }

  /** A string name is accepted exactly when it is at most 64 characters long and
      well formed. */
  lemma SkillNameAccepted(s: string)
    ensures ValidateSkillName(Str(s)).None? <==> |s| <= 64 && WellFormedName(s)
  {
    NamePatternIffWellFormed(s);
  }

  /** The rules are checked in order: emptiness first, then length, then the
      pattern, so an over-long name reports its length even when it is also
      malformed. */
  lemma SkillNameErrorOrder(s: string)
    ensures s == "" ==> ValidateSkillName(Str(s)) == Some(NameRequired)
    ensures |s| > 64 ==> ValidateSkillName(Str(s)) == Some(NameLengthError(|s|))
    ensures 1 <= |s| <= 64 && !WellFormedName(s) ==> ValidateSkillName(Str(s)) == Some(NamePatternError)
  {
    NamePatternIffWellFormed(s);
  }

  /** `validateDescription(description)`. */
  function ValidateDescription(v: Value): (r: Option<string>)
    ensures r.None? ==> Truthy(v)
  {
    if !Truthy(v) then Some(DescriptionRequired)
    else if OutOfRange(LengthOf(v), 1024) then Some(DescriptionLengthError(LengthOf(v).value))
    else None
  }

  /** A string description is accepted exactly when it has 1 to 1024 characters. */
  lemma DescriptionAccepted(s: string)
    ensures ValidateDescription(Str(s)).None? <==> 1 <= |s| <= 1024
    ensures |s| > 1024 ==> ValidateDescription(Str(s)) == Some(DescriptionLengthError(|s|))
  {
  }

  // ---------------------------------------------------------------------------
  // validateSkill / validateAndCopySkill

  /** `ValidationResult`; `name` is `String(frontmatter.name)` once the header has one. */
  datatype ValidationResult = ValidationResult(valid: bool, name: string, source: string,
                                               dest: Option<string>, errors: seq<string>,
                                               warnings: seq<string>)

  const InvalidFormat := "Invalid frontmatter format"
  const MissingName := "Missing required field: name"
  const MissingDescription := "Missing required field: description"
  /** The `catch` branch's `e.message` for a `TypeError`; the engine's wording is not modelled. */
  const TypeErrorMessage := "TypeError"
  /** The trigger hint of the copying validator, and of the validate-only one. */
  const TriggerWarningCopy := "Description should include activation trigger (e.g., \"Use when...\")"
  const TriggerWarning := "Description should include activation trigger"

  function MismatchWarning(dirName: string, name: string): string {
    "Directory name (" + dirName + ") doesn't match skill name (" + name + ")"
  }

  /** `parseMarkdownWithFrontmatter` with only the header kept: no length guard
      here, unlike the agent converter. */
  function ParseSkill(content: string, parse: string -> Parsed): (r: Option<Document>)
    ensures r.Some? ==> Frontmatter.SplitHeader(content).Some? &&
                        parse(Frontmatter.SplitHeader(content).value.yaml) == Doc(r.value)
    ensures r.None? ==> Frontmatter.SplitHeader(content).None? ||
                        parse(Frontmatter.SplitHeader(content).value.yaml).ParseError?
  {
    match Frontmatter.SplitHeader(content)
    case None => None
    case Some(p) =>
      match parse(p.yaml)
      case ParseError => None
      case Doc(d) => Some(d)
  }

  /** The name errors of a header: missing, or breaking a naming rule. */
  function NameErrors(h: Header): seq<string> {
    if !Present(h, "name") then [MissingName]
    else match ValidateSkillName(h["name"])
      case Some(e) => ["Invalid name: " + e]
      case None => []
  }

  /** The description errors: missing, breaking the length rule, and then the
      `TypeError` of `toLowerCase` on a value that is not a string. */
  function DescriptionErrors(h: Header): seq<string> {
    if !Present(h, "description") then [MissingDescription]
    else
      var v := h["description"];
      (match ValidateDescription(v) case Some(e) => ["Invalid description: " + e] case None => []) +
      (if v.Str? then [] else [TypeErrorMessage])
  }

  /** The header's name differs (strictly) from the directory's. */
  predicate Mismatch(h: Header, dirName: string) {
    Present(h, "name") && h["name"] != Str(dirName)
  }

  /** A string description that never mentions "use", in any case. */
  predicate LacksTrigger(h: Header) {
    Present(h, "description") && h["description"].Str? && !Contains(Lower(h["description"].s), "use")
  }

  function NameWarnings(h: Header, dirName: string): seq<string> {
    if Mismatch(h, dirName) then [MismatchWarning(dirName, ToText(h["name"]))] else []
  }

  function DescriptionWarnings(h: Header, copying: bool): seq<string> {
    if LacksTrigger(h) then [if copying then TriggerWarningCopy else TriggerWarning] else []
  }

  function ResultName(h: Header, dirName: string): string {
    if Present(h, "name") then ToText(h["name"]) else dirName
  }

  /** The directory a skill is named after: `basename(dirname(sourcePath))`. */
  function SkillDirName(path: string): string {
    Basename(Dirname(path))
  }

  /** What validating a skill file yields, stated as the combination of the
      rules: errors are the name errors followed by the description errors,
      valid means no error, and only a valid skill gets a destination.
      `copyTo` is `Some(destBase)` for `validateAndCopySkill` and `None` for
      `validateSkill`. */
  function SkillOutcome(path: string, content: string, parse: string -> Parsed,
                        copyTo: Option<string>): ValidationResult
  {
    var dirName := SkillDirName(path);
    match ParseSkill(content, parse)
    case None => ValidationResult(false, dirName, path, None, [InvalidFormat], [])
    case Some(NullDoc) => ValidationResult(false, dirName, path, None, [TypeErrorMessage], [])
    case Some(d) => Checked(FieldsOf(d), dirName, path, copyTo)
  }

  /** The record for a header that is not `null`. When copying a skill that
      passed every rule, `join(destBase, frontmatter.name)` throws for a name
      that is not a string (a number, a boolean or a list the naming pattern
      accepts once turned into text), and the `catch` branch records the error. */
  function Checked(h: Header, dirName: string, path: string, copyTo: Option<string>): ValidationResult {
    var errors := NameErrors(h) + DescriptionErrors(h);
    var name := ResultName(h, dirName);
    var warnings := NameWarnings(h, dirName) + DescriptionWarnings(h, copyTo.Some?);
    if copyTo.Some? && errors == [] then
      if Present(h, "name") && h["name"].Str? then
        ValidationResult(true, name, path, Some(copyTo.value + "/" + name), [], warnings)
      else
        ValidationResult(false, name, path, None, [TypeErrorMessage], warnings)
    else
      ValidationResult(errors == [], name, path, None, errors, warnings)
  }

  /** `validateSkill` (`copyTo == None`) and `validateAndCopySkill`
      (`copyTo == Some(destBase)`) on the file's content: the result record is
      filled in step by step, every error clearing `valid`. */
  method ValidateSkillFile(path: string, content: string, parse: string -> Parsed,
                           copyTo: Option<string>) returns (result: ValidationResult)
    ensures result == SkillOutcome(path, content, parse, copyTo)
  {
    var dirName := SkillDirName(path);
    result := ValidationResult(true, dirName, path, None, [], []);
    var parsed := ParseSkill(content, parse);
    if parsed.None? {
      result := result.(valid := false, errors := result.errors + [InvalidFormat]);
      return;
    }
    var doc := parsed.value;
    if doc.NullDoc? {
      // `frontmatter.name` on `null` throws
      result := result.(valid := false, errors := result.errors + [TypeErrorMessage]);
      return;
    }
    result := ValidateHeader(FieldsOf(doc), dirName, path, copyTo);
  }

  /** The rest of the validators once the header is a mapping (or a scalar,
      which has no fields). */
  method ValidateHeader(h: Header, dirName: string, path: string, copyTo: Option<string>)
    returns (result: ValidationResult)
    ensures result == Checked(h, dirName, path, copyTo)
  {
    result := ValidationResult(true, dirName, path, None, [], []);
    ghost var errors := NameErrors(h) + DescriptionErrors(h);
    ghost var warnings := NameWarnings(h, dirName) + DescriptionWarnings(h, copyTo.Some?);
    result := CheckName(h, dirName, result);
    assert result.errors == NameErrors(h);
    var thrown;
    result, thrown := CheckDescription(h, copyTo.Some?, result);
    assert result.errors == errors && result.warnings == warnings;
    assert result.valid == (errors == []);
    assert result.name == ResultName(h, dirName);
    if thrown {
      assert result == ValidationResult(false, ResultName(h, dirName), path, None, errors, warnings);
      return;
    }
    if copyTo.Some? && result.valid {
      assert Present(h, "name");
      if h["name"].Str? {
        result := result.(dest := Some(copyTo.value + "/" + result.name));
      } else {
        // `join` refuses a path segment that is not a string
        result := result.(valid := false, errors := result.errors + [TypeErrorMessage]);
      }
    }
  }

  /** The name checks of the validators, applied to the record `r0`. */
  method CheckName(h: Header, dirName: string, r0: ValidationResult) returns (r: ValidationResult)
    ensures r == r0.(valid := r0.valid && NameErrors(h) == [], name := if Present(h, "name") then ToText(h["name"]) else r0.name,
                     errors := r0.errors + NameErrors(h), warnings := r0.warnings + NameWarnings(h, dirName))
  {
    r := r0;
    if !Present(h, "name") {
      r := r.(valid := false, errors := r.errors + [MissingName]);
    } else {
      var name := h["name"];
      var check := ValidateSkillName(name);
      if check.Some? {
        r := r.(valid := false, errors := r.errors + ["Invalid name: " + check.value]);
      }
      if name != Str(dirName) {
        r := r.(warnings := r.warnings + [MismatchWarning(dirName, ToText(name))]);
      }
      r := r.(name := ToText(name));
    }
  }

  /** The description checks, applied to the record `r0`; `thrown` tells that
      `toLowerCase` threw, which sends the validator to its `catch` branch. */
  method CheckDescription(h: Header, copying: bool, r0: ValidationResult) returns (r: ValidationResult, thrown: bool)
    ensures thrown <==> Present(h, "description") && !h["description"].Str?
    ensures thrown ==> DescriptionErrors(h) != []
    ensures r == r0.(valid := r0.valid && DescriptionErrors(h) == [], errors := r0.errors + DescriptionErrors(h),
                     warnings := r0.warnings + DescriptionWarnings(h, copying))
  {
    r := r0;
    thrown := false;
    if !Present(h, "description") {
      r := r.(valid := false, errors := r.errors + [MissingDescription]);
    } else {
      var description := h["description"];
      var check := ValidateDescription(description);
      if check.Some? {
        r := r.(valid := false, errors := r.errors + ["Invalid description: " + check.value]);
      }
      if !description.Str? {
        // `toLowerCase` is not a function of a non-string
        r := r.(valid := false, errors := r.errors + [TypeErrorMessage]);
        thrown := true;
        return;
      }
      if !Contains(Lower(description.s), "use") {
        var hint := if copying then TriggerWarningCopy else TriggerWarning;
        r := r.(warnings := r.warnings + [hint]);
      }
    }
  }

  /** The record is consistent: valid exactly when no error was recorded, and a
      destination only for a valid skill, always when copying. */
  lemma OutcomeConsistent(path: string, content: string, parse: string -> Parsed, copyTo: Option<string>)
    ensures var r := SkillOutcome(path, content, parse, copyTo);
      (r.valid <==> r.errors == []) &&
      (r.dest.Some? <==> r.valid && copyTo.Some?) &&
      r.source == path
  {
    var d := ParseSkill(content, parse);
    if d.Some? && !d.value.NullDoc? {
      CheckedConsistent(FieldsOf(d.value), SkillDirName(path), path, copyTo);
    }
  }

  lemma CheckedConsistent(h: Header, dirName: string, path: string, copyTo: Option<string>)
    ensures var r := Checked(h, dirName, path, copyTo);
      (r.valid <==> r.errors == []) && (r.dest.Some? <==> r.valid && copyTo.Some?) && r.source == path
  {
  }

  /** A file whose header cannot be split off or parsed gets exactly one error,
      no warning, and keeps its directory's name. */
  lemma InvalidHeaderOneError(path: string, content: string, parse: string -> Parsed, copyTo: Option<string>)
    requires ParseSkill(content, parse).None?
    ensures SkillOutcome(path, content, parse, copyTo) ==
      ValidationResult(false, SkillDirName(path), path, None, [InvalidFormat], [])
  {
  }

  /** The header of a parsed, non-null file has a string `name`. */
  predicate NameIsString(content: string, parse: string -> Parsed) {
    var d := ParseSkill(content, parse);
    d.Some? && !d.value.NullDoc? && Present(FieldsOf(d.value), "name") && FieldsOf(d.value)["name"].Str?
  }

  /** Warnings never decide validity: the directory name (the only input of the
      mismatch warning) and the destination base leave `valid` and `errors` as
      they are, in either mode. */
  lemma ValidityIgnoresWarnings(p1: string, p2: string, content: string, parse: string -> Parsed,
                                c1: Option<string>, c2: Option<string>)
    requires c1.Some? == c2.Some?
    ensures SkillOutcome(p1, content, parse, c1).valid == SkillOutcome(p2, content, parse, c2).valid
    ensures SkillOutcome(p1, content, parse, c1).errors == SkillOutcome(p2, content, parse, c2).errors
  {
    var d := ParseSkill(content, parse);
    if d.Some? && !d.value.NullDoc? {
      CheckedSameMode(FieldsOf(d.value), SkillDirName(p1), SkillDirName(p2), p1, p2, c1, c2);
    }
  }

  lemma CheckedSameMode(h: Header, n1: string, n2: string, p1: string, p2: string, c1: Option<string>, c2: Option<string>)
    requires c1.Some? == c2.Some?
    ensures Checked(h, n1, p1, c1).valid == Checked(h, n2, p2, c2).valid
    ensures Checked(h, n1, p1, c1).errors == Checked(h, n2, p2, c2).errors
  {
  }

  /** The two modes differ only where copying throws: a skill is valid when
      copied exactly when it is valid unchecked and its name is a string; a
      skill valid unchecked whose name is not a string gets the one `TypeError`,
      and a skill invalid unchecked gets the same errors either way. */
  lemma ModesDifferOnlyAtJoin(path: string, content: string, parse: string -> Parsed, destBase: string)
    ensures var copied := SkillOutcome(path, content, parse, Some(destBase));
      var checked := SkillOutcome(path, content, parse, None);
      (copied.valid <==> checked.valid && NameIsString(content, parse)) &&
      (checked.valid && !NameIsString(content, parse) ==> copied.errors == [TypeErrorMessage]) &&
      (!checked.valid ==> copied.errors == checked.errors)
  {
    var d := ParseSkill(content, parse);
    if d.Some? && !d.value.NullDoc? {
      CheckedModes(FieldsOf(d.value), SkillDirName(path), path, destBase);
    }
  }

  lemma CheckedModes(h: Header, dirName: string, path: string, destBase: string)
    ensures var copied := Checked(h, dirName, path, Some(destBase));
      var checked := Checked(h, dirName, path, None);
      var isString := Present(h, "name") && h["name"].Str?;
      (copied.valid <==> checked.valid && isString) &&
      (checked.valid && !isString ==> copied.errors == [TypeErrorMessage]) &&
      (!checked.valid ==> copied.errors == checked.errors)
  {
  }

  /** `name: 123` passes every naming rule, yet copying that skill fails. */
  lemma NumericNameNotCopied(path: string, destBase: string, h: Header)
    requires h == map["name" := Scalar("123", true), "description" := Str("Use when testing")]
    ensures Checked(h, SkillDirName(path), path, None).valid
    ensures Checked(h, SkillDirName(path), path, Some(destBase)) ==
      ValidationResult(false, "123", path, None, [TypeErrorMessage],
                       NameWarnings(h, SkillDirName(path)) + DescriptionWarnings(h, true))
  {
    NamePatternIffWellFormed("123");
    assert ValidateSkillName(h["name"]).None?;
    assert NameErrors(h) == [];
    assert ValidateDescription(h["description"]).None?;
    assert DescriptionErrors(h) == [];
    assert ResultName(h, SkillDirName(path)) == "123";
  }

  /** For a header with string name `n` and string description `d`, the skill is
      valid exactly when `n` is a well-formed name of at most 64 characters and
      `d` has 1 to 1024 characters. */
  lemma ValidIffRules(path: string, content: string, parse: string -> Parsed, copyTo: Option<string>,
                      h: Header, n: string, d: string)
    requires ParseSkill(content, parse) == Some(Mapping(h))
    requires "name" in h && h["name"] == Str(n)
    requires "description" in h && h["description"] == Str(d)
    ensures SkillOutcome(path, content, parse, copyTo).valid <==>
      |n| <= 64 && WellFormedName(n) && 1 <= |d| <= 1024
  {
    SkillNameAccepted(n);
    DescriptionAccepted(d);
  }

  /** A skill valid when copied is named after its header's string name, and
      that name passed the naming pattern, so it holds no '/' and the
      destination is the plain `destBase/name`. */
  lemma DestinationFromHeaderName(path: string, content: string, parse: string -> Parsed, destBase: string)
    requires SkillOutcome(path, content, parse, Some(destBase)).valid
    ensures var r := SkillOutcome(path, content, parse, Some(destBase));
      var h := FieldsOf(ParseSkill(content, parse).value);
      Present(h, "name") && h["name"].Str? && r.name == h["name"].s &&
      MatchesNamePattern(r.name) && '/' !in r.name &&
      r.dest == Some(destBase + "/" + r.name)
  {
    var r := SkillOutcome(path, content, parse, Some(destBase));
    var h := FieldsOf(ParseSkill(content, parse).value);
    assert NameErrors(h) == [];
    NamePatternNoSlash(r.name);
  }

  lemma NamePatternNoSlash(s: string)
    requires MatchesNamePattern(s)
    ensures '/' !in s
  {
    NamePatternIffWellFormed(s);
  }

  /** The trigger hint is given exactly for a string description that never
      mentions "use", in either mode, and never makes a skill invalid. */
  lemma TriggerHint(path: string, content: string, parse: string -> Parsed, copyTo: Option<string>, h: Header)
    requires ParseSkill(content, parse) == Some(Mapping(h))
    ensures var r := SkillOutcome(path, content, parse, copyTo);
      var hint := if copyTo.Some? then TriggerWarningCopy else TriggerWarning;
      (LacksTrigger(h) <==> |r.warnings| > 0 && r.warnings[|r.warnings| - 1] == hint)
  {
    assert SkillOutcome(path, content, parse, copyTo) == Checked(h, SkillDirName(path), path, copyTo);
    CheckedHint(h, SkillDirName(path), path, copyTo);
  }

  lemma CheckedHint(h: Header, dirName: string, path: string, copyTo: Option<string>)
    ensures var r := Checked(h, dirName, path, copyTo);
      var hint := if copyTo.Some? then TriggerWarningCopy else TriggerWarning;
      (LacksTrigger(h) <==> |r.warnings| > 0 && r.warnings[|r.warnings| - 1] == hint)
  {
    var w := NameWarnings(h, dirName) + DescriptionWarnings(h, copyTo.Some?);
    assert Checked(h, dirName, path, copyTo).warnings == w;
    if Mismatch(h, dirName) {
      MismatchNotHint(dirName, ToText(h["name"]));
    }
  }

  /** The mismatch warning cannot be mistaken for the trigger hint. */
  lemma MismatchNotHint(dirName: string, name: string)
    ensures MismatchWarning(dirName, name) != TriggerWarningCopy
    ensures MismatchWarning(dirName, name) != TriggerWarning
  {
    assert MismatchWarning(dirName, name)[0] == 'D' && MismatchWarning(dirName, name)[1] == 'i';
    assert TriggerWarning[1] == 'e' && TriggerWarningCopy[1] == 'e';
  }

  // ---------------------------------------------------------------------------
  // main: duplicate names and the summary

  function DuplicateWarning(name: string): string {
    "Duplicate skill name: " + name
  }

  /** Some earlier result has the same name as result `i`. */
  predicate SeenBefore(rs: seq<ValidationResult>, i: nat)
    requires i < |rs|
  {
    exists j :: 0 <= j < i && rs[j].name == rs[i].name
  }

  /** Result `i` after the duplicate check of `main`. */
  function Marked(rs: seq<ValidationResult>, i: nat): ValidationResult
    requires i < |rs|
  {
    if SeenBefore(rs, i) then rs[i].(warnings := rs[i].warnings + [DuplicateWarning(rs[i].name)]) else rs[i]
  }

  /** The set of names among the first `n` results. */
  function NamesOf(rs: seq<ValidationResult>, n: nat): set<string>
    requires n <= |rs|
  {
    set j | 0 <= j < n :: rs[j].name
  }

  /** The processing loop of `main`: each file is validated (`validate` is
      `validateSkill` or `validateAndCopySkill` with the destination fixed), a
      result whose name was already seen gets a duplicate warning, and the name
      joins the seen set. */
  method ValidateAll(files: seq<(string, string)>, validate: (string, string) -> ValidationResult)
    returns (results: seq<ValidationResult>)
    ensures |results| == |files|
    ensures var base := seq(|files|, i requires 0 <= i < |files| => validate(files[i].0, files[i].1));
      forall i :: 0 <= i < |files| ==> results[i] == Marked(base, i)
  {
    ghost var base := seq(|files|, i requires 0 <= i < |files| => validate(files[i].0, files[i].1));
    results := [];
    var seenNames: set<string> := {};
    for i := 0 to |files|
      invariant |results| == i
      invariant seenNames == NamesOf(base, i)
      invariant forall k :: 0 <= k < i ==> results[k] == Marked(base, k)
    {
      var result := validate(files[i].0, files[i].1);
      assert result == base[i];
      if result.name in seenNames {
        result := result.(warnings := result.warnings + [DuplicateWarning(result.name)]);
      }
      seenNames := seenNames + {result.name};
      results := results + [result];
    }
  }

  /** The duplicate check only adds a warning: validity, errors, name and
      destination are kept, and the first result of each name is unchanged. */
  lemma MarkedKeeps(rs: seq<ValidationResult>, i: nat)
    requires i < |rs|
    ensures Marked(rs, i).valid == rs[i].valid && Marked(rs, i).errors == rs[i].errors
    ensures Marked(rs, i).name == rs[i].name && Marked(rs, i).dest == rs[i].dest
    ensures Marked(rs, i).warnings[..|rs[i].warnings|] == rs[i].warnings
    ensures (forall j :: 0 <= j < i ==> rs[j].name != rs[i].name) ==> Marked(rs, i) == rs[i]
  {
  }

  /** The number of results that get a duplicate warning. */
  function CountDuplicates(rs: seq<ValidationResult>, n: nat): nat
    requires n <= |rs|
  {
    if n == 0 then 0 else CountDuplicates(rs, n - 1) + (if SeenBefore(rs, n - 1) then 1 else 0)
  }

  /** Every result after the first of its name is flagged, so the flagged ones
      number the results minus the distinct names. */
  lemma {:induction false} DuplicatesCount(rs: seq<ValidationResult>, n: nat)
    requires n <= |rs|
    ensures CountDuplicates(rs, n) + |NamesOf(rs, n)| == n
  {
    if n > 0 {
      DuplicatesCount(rs, n - 1);
      var before := NamesOf(rs, n - 1);
      assert NamesOf(rs, n) == before + {rs[n - 1].name};
      if SeenBefore(rs, n - 1) {
        var j :| 0 <= j < n - 1 && rs[j].name == rs[n - 1].name;
        assert rs[n - 1].name in before;
      } else {
        assert rs[n - 1].name !in before;
      }
    }
  }

  function CountValid(rs: seq<ValidationResult>): (n: nat)
    ensures n <= |rs|
  {
    if rs == [] then 0 else CountValid(rs[..|rs| - 1]) + (if rs[|rs| - 1].valid then 1 else 0)
  }

  function CountInvalid(rs: seq<ValidationResult>): (n: nat)
    ensures n <= |rs|
  {
    if rs == [] then 0 else CountInvalid(rs[..|rs| - 1]) + (if rs[|rs| - 1].valid then 0 else 1)
  }

  function CountWithWarnings(rs: seq<ValidationResult>): (n: nat)
    ensures n <= |rs|
  {
    if rs == [] then 0 else CountWithWarnings(rs[..|rs| - 1]) + (if rs[|rs| - 1].warnings != [] then 1 else 0)
  }

  /** Valid and invalid skills partition the results. */
  lemma {:induction false} ValidInvalidPartition(rs: seq<ValidationResult>)
    ensures CountValid(rs) + CountInvalid(rs) == |rs|
  {
    if rs != [] {
      ValidInvalidPartition(rs[..|rs| - 1]);
    }
  }

  /** Two result lists that agree on validity, and where the second has warnings
      wherever the first has, have the same valid count and at least as many
      results with warnings: the duplicate check never changes the valid
      count. */
  lemma {:induction false} SummaryAfterMarking(rs: seq<ValidationResult>, ms: seq<ValidationResult>)
    requires |rs| == |ms|
    requires forall i :: 0 <= i < |rs| ==> ms[i].valid == rs[i].valid
    requires forall i :: 0 <= i < |rs| ==> rs[i].warnings != [] ==> ms[i].warnings != []
    ensures CountValid(ms) == CountValid(rs) && CountInvalid(ms) == CountInvalid(rs)
    ensures CountWithWarnings(ms) >= CountWithWarnings(rs)
  {
    if rs != [] {
      var n := |rs| - 1;
      SummaryAfterMarking(rs[..n], ms[..n]);
    }
  }
}
