/**
 * The skill documentation generator: the category rules and positions of
 * skills, the `Use when` trigger list of a skill page, the skill record built
 * from each skill directory and the grouping of skills by category.
 */
module SkillDocs {
  import opened Text
  import opened DocsCommon
  import DocsFrontmatter

  /** `categoryRules`, in declaration order. */
  const SkillRules: seq<Rule> := [
    Rule([Lit("python"), Lit("django"), Lit("fastapi"), Lit("pydantic"), Lit("pytest"), Lit("asyncio"), Lit("uv-package")], "python"),
    Rule([Lit("typescript"), Lit("javascript"), Lit("nodejs"), Lit("react"), Lit("nextjs"), Lit("angular"), Lit("tailwind")], "javascript"),
    Rule([Lit("rust"), Lit("golang"), Lit("go-"), Lit("memory-safety")], "systems"),
    Rule([Lit("kubernetes"), Lit("k8s"), Lit("helm"), Lit("terraform"), Lit("cloud"), Lit("aws"), Lit("azure"), Lit("gcp"), Lit("gitops"), Lit("istio"), Lit("linkerd")], "infrastructure"),
    Rule([Lit("deployment"), Lit("cicd"), Lit("github-actions"), Lit("gitlab"), Lit("secrets")], "cicd"),
    Rule([Lit("database"), Lit("sql"), Lit("postgresql"), Lit("migration")], "database"),
    Rule([Lit("security"), Lit("sast"), Lit("threat"), Lit("stride"), Lit("attack"), Lit("pci"), Lit("gdpr")], "security"),
    Rule([Lit("test"), Lit("e2e"), Lit("bats"), Lit("debugging")], "testing"),
    Rule([Lit("code-review"), Lit("error-handling")], "quality"),
    Rule([Lit("llm"), Lit("langchain"), Lit("rag"), Lit("embedding"), Lit("vector"), Lit("prompt"), Lit("similarity"), Lit("hybrid-search")], "ai-ml"),
    Rule([Lit("ml-pipeline")], "ai-ml"),
    Rule([Lit("api-design"), Lit("architecture-pattern"), Lit("microservices"), Lit("workflow"), Lit("temporal"), Lit("event"), Lit("cqrs"), Lit("saga"), Lit("projection")], "backend"),
    Rule([Lit("auth-implementation")], "backend"),
    Rule([Lit("mobile"), Lit("ios"), Lit("android"), Lit("react-native"), Lit("flutter"), Lit("responsive"), Lit("design-system"), Lit("visual-design"), Lit("interaction")], "frontend"),
    Rule([Lit("accessibility"), Lit("wcag"), Lit("screen-reader")], "accessibility"),
    Rule([Lit("openapi"), Lit("changelog"), Lit("adr"), Lit("architecture-decision")], "documentation"),
    Rule([Lit("observability"), Lit("prometheus"), Lit("grafana"), Lit("tracing"), Lit("slo"), Lit("incident"), Lit("postmortem"), Lit("on-call")], "observability"),
    Rule([Lit("data-quality"), Lit("dbt"), Lit("spark"), Lit("airflow"), Lit("data-storytelling"), Lit("kpi")], "data"),
    Rule([Lit("market"), Lit("startup"), Lit("financial"), Lit("competitive"), Lit("team-composition")], "business"),
    Rule([Lit("employment"), Lit("hr")], "hr-legal"),
    Rule([Lit("blockchain"), Lit("defi"), Lit("nft"), Lit("solidity"), Lit("web3")], "blockchain"),
    Rule([Lit("backtesting"), Lit("risk-metrics"), Lit("trading")], "finance"),
    Rule([Lit("stripe"), Lit("paypal"), Lit("payment"), Lit("billing")], "payments"),
    Rule([Lit("unity"), Lit("godot"), Lit("game")], "gaming"),
    Rule([Lit("binary"), Lit("memory-forensics"), Lit("protocol-reverse"), Lit("anti-reversing")], "reverse-engineering"),
    Rule([Lit("monorepo"), Lit("nx-workspace"), Lit("turborepo"), Lit("bazel")], "monorepo"),
    Rule([Lit("git-advanced")], "git"),
    Rule([Lit("dotnet")], "dotnet")
  ]

  /** The `positions` table of `getCategoryPosition`. */
  const SkillPositions: map<string, int> := map[
    "python" := 1, "javascript" := 2, "systems" := 3, "dotnet" := 4, "backend" := 5,
    "frontend" := 6, "accessibility" := 7, "infrastructure" := 8, "cicd" := 9, "database" := 10,
    "testing" := 11, "quality" := 12, "security" := 13, "ai-ml" := 14, "observability" := 15,
    "data" := 16, "documentation" := 17, "monorepo" := 18, "git" := 19, "blockchain" := 20,
    "finance" := 21, "payments" := 22, "gaming" := 23, "business" := 24, "hr-legal" := 25,
    "reverse-engineering" := 26, "other" := 99
  ]

  // ---------------------------------------------------------------------------
  // categorizeSkill and getCategoryPosition

  /** The text the rules are tested on: `${name} ${description}`, lower-cased. */
  function Combined(name: string, description: string): string {
    Lower(name + " " + description)
  }

  function SkillCategory(name: string, description: string): string {
    Categorize(SkillRules, Combined(name, description))
  }

  /** `categorizeSkill`: the label of the first rule that matches the combined
      text, or `other`. */
  method CategorizeSkill(name: string, description: string) returns (category: string)
    ensures category == SkillCategory(name, description)
    ensures category == "other" || exists i :: 0 <= i < |SkillRules| && category == SkillRules[i].category
  {
    category := CategorizeText(SkillRules, Combined(name, description));
    CategorizeLabel(SkillRules, Combined(name, description));
  }

  /** Rule order decides: a text that mentions both python and security
      matches the security rule too, yet is labelled `python`. */
  lemma PythonBeforeSecurity(t: string)
    requires Contains(t, "python") && Contains(t, "security")
    ensures RuleMatches(SkillRules[6], t)
    ensures Categorize(SkillRules, t) == "python"
  {
    var i :| 0 <= i <= |t| && "python" <= t[i..];
    assert t[i..i + 6] == "python";
    WordMatches(SkillRules[0], 0, t, i);
    var j :| 0 <= j <= |t| && "security" <= t[j..];
    assert t[j..j + 8] == "security";
    WordMatches(SkillRules[6], 0, t, j);
    EarlierRuleWins(SkillRules, t, 0);
  }

  function SkillPosition(category: string): int {
    Position(SkillPositions, category)
  }

  /** `getCategoryPosition`: `other` is last (99), a category outside the table
      gets 50, and every label a rule can produce has its listed position. */
  lemma SkillPositionTable(category: string)
    ensures SkillPosition("other") == 99
    ensures category !in SkillPositions ==> SkillPosition(category) == 50
    ensures category in SkillPositions ==> SkillPosition(category) == SkillPositions[category]
    ensures forall i :: 0 <= i < |SkillRules| ==> SkillRules[i].category in SkillPositions
  {
    assert forall c :: c in SkillPositions ==> SkillPositions[c] != 0;
  }

  // ---------------------------------------------------------------------------
  // extractUseTriggers

  /** `line.replace(/^[-*]\s+/, '')`: a leading bullet and the whitespace after
      it, when there is at least one whitespace character. */
  function StripBullet(line: string): (r: string)
    ensures |r| <= |line|
  {
    if |line| >= 2 && (line[0] == '-' || line[0] == '*') && IsSpace(line[1]) then
      line[DocsFrontmatter.SkipSpace(line, 1)..]
    else line
  }

  function Cleaned(line: string): string {
    Trim(StripBullet(line))
  }

  /** `split('\n').filter(l => l.trim())`. */
  function NonBlank(lines: seq<string>): (r: seq<string>)
    ensures forall k :: 0 <= k < |r| ==> Trim(r[k]) != "" && r[k] in lines
    decreases |lines|
  {
    if lines == [] then []
    else (if Trim(lines[0]) != "" then [lines[0]] else []) + NonBlank(lines[1..])
  }

  function CleanAll(lines: seq<string>): (r: seq<string>)
    ensures |r| == |lines|
    ensures forall k :: 0 <= k < |lines| ==> r[k] == Cleaned(lines[k])
  {
    seq(|lines|, k requires 0 <= k < |lines| => Cleaned(lines[k]))
  }

  /** The entries that are not empty, in order. */
  function NonEmpty(xs: seq<string>): (r: seq<string>)
    ensures |r| <= |xs|
    ensures forall k :: 0 <= k < |r| ==> r[k] != "" && r[k] in xs
    decreases |xs|
  {
    if xs == [] then []
    else NonEmpty(xs[..|xs| - 1]) + (if xs[|xs| - 1] != "" then [xs[|xs| - 1]] else [])
  }

  /** The first five non-blank lines of the captured bullet block. */
  function Candidates(block: string): (r: seq<string>)
    ensures |r| <= 5
  {
    Take5(NonBlank(Split(block, '\n')))
  }

  /** `slice(0, 5)`. */
  function Take5(lines: seq<string>): (r: seq<string>)
    ensures |r| <= 5 && r <= lines
    ensures |lines| <= 5 ==> r == lines
  {
    if |lines| <= 5 then lines else lines[..5]
  }

  /** The trigger list of a skill page, given the block the `use when` /
      `when to use` regex captured (none when it does not match). */
  function Triggers(block: Option<string>): seq<string> {
    if block.None? then [] else NonEmpty(CleanAll(Candidates(block.value)))
  }

  /** `extractUseTriggers`: at most five entries, each non-empty, each the
      cleaned form of one of the block's first five non-blank lines. */
  method ExtractUseTriggers(block: Option<string>) returns (triggers: seq<string>)
    ensures triggers == Triggers(block)
    ensures |triggers| <= 5
    ensures block.None? ==> triggers == []
    ensures block.Some? ==> forall k :: 0 <= k < |triggers| ==>
      triggers[k] != "" && triggers[k] in CleanAll(Candidates(block.value))
  {
    if block.None? {
      return [];
    }
    triggers := PushCleaned(Candidates(block.value));
  }

  /** The loop of `extractUseTriggers`: clean each candidate line and push the
      non-empty results. */
  method PushCleaned(lines: seq<string>) returns (triggers: seq<string>)
    ensures triggers == NonEmpty(CleanAll(lines))
  {
    triggers := [];
    ghost var cleanedLines := CleanAll(lines);
    for i := 0 to |lines|
      invariant triggers == NonEmpty(cleanedLines[..i])
    {
      var cleaned := Cleaned(lines[i]);
      assert cleanedLines[..i + 1][..i] == cleanedLines[..i];
      assert cleanedLines[..i + 1][i] == cleaned;
      if cleaned != "" {
        triggers := triggers + [cleaned];
      }
    }
    assert cleanedLines[..|lines|] == cleanedLines;
  }

  /** A bullet line `- x` or `* x` yields `x` trimmed. */
  lemma CleanedBullet(b: char, x: string)
    requires b == '-' || b == '*'
    requires x != [] && !IsSpace(x[0])
    ensures Cleaned([b, ' '] + x) == Trim(x)
  {
    var line := [b, ' '] + x;
    assert line[2] == x[0];
    assert DocsFrontmatter.SkipSpace(line, 2) == 2;
    assert DocsFrontmatter.SkipSpace(line, 1) == 2;
    assert line[2..] == x;
  }

  // ---------------------------------------------------------------------------
  // The skill records built by main, and their grouping

  datatype Skill = Skill(name: string, slug: string, frontmatter: DocsFrontmatter.SkillHeader,
                         content: string, category: string)

  /** The record `main` pushes for a skill directory `dir` whose SKILL.md holds
      `content`. */
  function MakeSkill(dir: string, content: string): Skill {
    var (fm, body) := DocsFrontmatter.ParseSkillHeader(content);
    var name := if fm.name != "" then fm.name else dir;
    Skill(name, dir, fm, Trim(body), SkillCategory(name, fm.description))
  }

  /** The name falls back to the directory when the header has none, the slug
      is always the directory and the category comes from the rules. */
  lemma MakeSkillFields(dir: string, content: string)
    ensures var s := MakeSkill(dir, content); var fm := DocsFrontmatter.ParseSkillHeader(content).0;
      s.slug == dir &&
      s.name == (if fm.name == "" then dir else fm.name) &&
      s.frontmatter == fm &&
      s.content == Trim(DocsFrontmatter.ParseSkillHeader(content).1) &&
      (s.category == "other" || exists i :: 0 <= i < |SkillRules| && s.category == SkillRules[i].category)
  {
    var s := MakeSkill(dir, content);
    CategorizeLabel(SkillRules, Combined(s.name, s.frontmatter.description));
  }

  function SkillKey(s: Skill): string { s.category }

  /** `main`: one record per skill directory, then the `byCategory` buckets. */
  method BuildSkillGroups(dirs: seq<(string, string)>) returns (skills: seq<Skill>, byCategory: map<string, seq<Skill>>)
    ensures |skills| == |dirs|
    ensures forall i :: 0 <= i < |dirs| ==> skills[i] == MakeSkill(dirs[i].0, dirs[i].1)
    ensures byCategory.Keys == Keys(skills, SkillKey)
    ensures forall c :: c in byCategory ==> byCategory[c] == Bucket(skills, SkillKey, c)
  {
    skills := BuildEach(dirs, (d: (string, string)) => MakeSkill(d.0, d.1));
    byCategory := GroupBy(skills, SkillKey);
  }
}
