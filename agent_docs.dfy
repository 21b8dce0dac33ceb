/**
 * The agent documentation generator: the category rules and positions of
 * agents, the model tier of an agent, the agent record built from each agent
 * file, the grouping by category, the model counts of the overview page and
 * the rows of a category index page.
 */
module AgentDocs {
  import opened Text
  import opened DocsCommon
  import DocsFrontmatter

  /** `categoryRules`, in declaration order. */
  const AgentRules: seq<Rule> := [
    Rule([Lit("architect"), Lit("design-system"), Lit("graphql")], "architecture"),
    Rule([Lit("python"), Lit("django"), Lit("fastapi")], "languages/python"),
    Rule([Lit("typescript"), Lit("javascript"), Lit("nodejs")], "languages/javascript"),
    Rule([Lit("rust"), Lit("golang"), Lit("go-pro"), Lit("c-pro"), Lit("cpp")], "languages/systems"),
    Rule([Lit("java-pro"), Lit("scala"), Lit("csharp"), Lit("dotnet")], "languages/enterprise"),
    Rule([Lit("ruby"), Lit("php"), Lit("elixir"), Lit("haskell")], "languages/other"),
    Rule([Lit("bash"), Lit("shell"), Lit("posix")], "languages/shell"),
    Rule([Lit("kubernetes"), Lit("k8s"), Lit("terraform"), Lit("cloud"), Lit("deployment"), Lit("devops"), Lit("service-mesh")], "infrastructure"),
    Rule([Lit("database"), Lit("sql"), Lit("data-engineer")], "data"),
    Rule([Lit("security"), Lit("threat"), Lit("audit")], "security"),
    Rule([Lit("test"), Lit("tdd"), Lit("debug"), Lit("error")], "quality"),
    Rule([Lit("review"), Lit("code-review")], "quality"),
    Rule([Lit("performance"), Lit("observability")], "operations"),
    Rule([Lit("ai-engineer"), Lit("ml"), MachineLearning, Lit("llm"), Lit("prompt"), Lit("vector"), Lit("data-scientist")], "ai-ml"),
    Rule([Lit("doc"), Lit("tutorial"), Lit("mermaid"), Lit("c4-")], "documentation"),
    Rule([Lit("business"), Lit("analyst"), Lit("hr"), Lit("legal"), Lit("sales"), Lit("customer"), Lit("content"), Lit("seo"), Lit("marketing")], "business"),
    Rule([Lit("blockchain"), Lit("payment"), Lit("game"), Lit("unity"), Lit("minecraft"), Lit("quant"), Lit("risk"), Lit("firmware"), Lit("malware"), Lit("reverse")], "specialized"),
    Rule([Lit("ui"), Lit("ux"), Lit("frontend"), Lit("mobile"), Lit("ios"), Lit("flutter"), Lit("accessibility")], "ui-ux")
  ]

  /** The `positions` table of `getCategoryPosition`. */
  const AgentPositions: map<string, int> := map[
    "architecture" := 1, "ui-ux" := 2, "languages/python" := 3, "languages/javascript" := 4,
    "languages/systems" := 5, "languages/enterprise" := 6, "languages/shell" := 7,
    "languages/other" := 8, "infrastructure" := 9, "data" := 10, "quality" := 11,
    "security" := 12, "operations" := 13, "ai-ml" := 14, "documentation" := 15,
    "business" := 16, "specialized" := 17, "other" := 99
  ]

  // ---------------------------------------------------------------------------
  // categorizeAgent and getCategoryPosition

  /** The text the rules are tested on: `${name} ${description}`, lower-cased. */
  function Combined(name: string, description: string): string {
    Lower(name + " " + description)
  }

  function AgentCategory(name: string, description: string): string {
    Categorize(AgentRules, Combined(name, description))
  }

  /** `categorizeAgent`: the label of the first rule that matches the combined
      text, or `other`. */
  method CategorizeAgent(name: string, description: string) returns (category: string)
    ensures category == AgentCategory(name, description)
    ensures category == "other" || exists i :: 0 <= i < |AgentRules| && category == AgentRules[i].category
  {
    category := CategorizeText(AgentRules, Combined(name, description));
    CategorizeLabel(AgentRules, Combined(name, description));
  }

  /** Rule order shadows later rules: a text that mentions both architect and
      security matches the security rule too, yet is labelled `architecture`. */
  lemma ArchitectBeforeSecurity(t: string)
    requires Contains(t, "architect") && Contains(t, "security")
    ensures RuleMatches(AgentRules[9], t)
    ensures Categorize(AgentRules, t) == "architecture"
  {
    var i :| 0 <= i <= |t| && "architect" <= t[i..];
    assert t[i..i + 9] == "architect";
    WordMatches(AgentRules[0], 0, t, i);
    var j :| 0 <= j <= |t| && "security" <= t[j..];
    assert t[j..j + 8] == "security";
    WordMatches(AgentRules[9], 0, t, j);
    EarlierRuleWins(AgentRules, t, 0);
  }

  /** The agent named `security-architect` is an architecture agent, whatever
      its description. */
  lemma SecurityArchitect(description: string)
    ensures AgentCategory("security-architect", description) == "architecture"
  {
    var name := "security-architect";
    var t := Combined(name, description);
    assert name + " " + description == name + (" " + description);
    LowerConcat(name, " " + description);
    LowerOfLowercase(name);
    assert t[..|name|] == name;
    NamedSecurityArchitect(t);
    ArchitectBeforeSecurity(t);
  }

  lemma LowerOfLowercase(name: string)
    requires name == "security-architect"
    ensures Lower(name) == name
  {
    forall k | 0 <= k < |name|
      ensures Lower(name)[k] == name[k]
    {
      assert !IsUpper(name[k]);
    }
  }

  lemma NamedSecurityArchitect(t: string)
    requires |t| >= 18 && t[..18] == "security-architect"
    ensures Contains(t, "security") && Contains(t, "architect")
  {
    assert t[0..][..8] == "security";
    assert t[9..][..9] == "architect";
  }

  function AgentPosition(category: string): int {
    Position(AgentPositions, category)
  }

  /** `getCategoryPosition`: `other` is last (99), a category outside the table
      gets 50, and every label a rule can produce (the `languages/…` paths
      included) has its listed position. */
  lemma AgentPositionTable(category: string)
    ensures AgentPosition("other") == 99
    ensures category !in AgentPositions ==> AgentPosition(category) == 50
    ensures category in AgentPositions ==> AgentPosition(category) == AgentPositions[category]
    ensures forall i :: 0 <= i < |AgentRules| ==> AgentRules[i].category in AgentPositions
  {
    assert forall c :: c in AgentPositions ==> AgentPositions[c] != 0;
  }

  // ---------------------------------------------------------------------------
  // getModelTier and the model counts of the overview

  const Opus := "opus"
  const Sonnet := "sonnet"
  const Haiku := "haiku"

  /** `getModelTier`: no model (or '') is sonnet; then opus wins over haiku. */
  function ModelTier(model: Option<string>): (tier: string)
    ensures tier == Opus || tier == Sonnet || tier == Haiku
  {
    if model.None? || model.value == "" then Sonnet
    else if Contains(model.value, "opus") then Opus
    else if Contains(model.value, "haiku") then Haiku
    else Sonnet
  }

  /** The tier of each kind of model string. */
  lemma ModelTierCases(model: Option<string>)
    ensures model.None? ==> ModelTier(model) == Sonnet
    ensures model.Some? && Contains(model.value, "opus") ==> ModelTier(model) == Opus
    ensures model.Some? && !Contains(model.value, "opus") && Contains(model.value, "haiku") ==> ModelTier(model) == Haiku
    ensures model.Some? && !Contains(model.value, "opus") && !Contains(model.value, "haiku") ==> ModelTier(model) == Sonnet
  {
  }

  predicate IsTier(tier: string) {
    tier == Opus || tier == Sonnet || tier == Haiku
  }

  /** `agents.filter(a => a.modelTier === tier).length`. */
  function CountTier(tiers: seq<string>, tier: string): (n: nat)
    ensures n <= |tiers|
    decreases |tiers|
  {
    if tiers == [] then 0
    else CountTier(tiers[..|tiers| - 1], tier) + (if tiers[|tiers| - 1] == tier then 1 else 0)
  }

  /** Every tier is one of the three, so the three counts add up to the number
      of agents. */
  lemma {:induction false} TierCountsSum(agents: seq<Agent>)
    requires forall i :: 0 <= i < |agents| ==> IsTier(agents[i].modelTier)
    ensures var ts := TiersOf(agents);
      CountTier(ts, Opus) + CountTier(ts, Sonnet) + CountTier(ts, Haiku) == |agents|
    decreases |agents|
  {
    if agents != [] {
      var init := agents[..|agents| - 1];
      TierCountsSum(init);
      assert TiersOf(agents)[..|agents| - 1] == TiersOf(init);
      assert TiersOf(agents)[|agents| - 1] == agents[|agents| - 1].modelTier;
    }
  }

  function TiersOf(agents: seq<Agent>): (ts: seq<string>)
    ensures |ts| == |agents|
    ensures forall i :: 0 <= i < |agents| ==> ts[i] == agents[i].modelTier
  {
    seq(|agents|, i requires 0 <= i < |agents| => agents[i].modelTier)
  }

  // ---------------------------------------------------------------------------
  // The agent name of a file

  /** `file.replace('.md', '')`: removes the FIRST occurrence of ".md". */
  function ReplaceFirstMd(file: string): string {
    match IndexOf(file, ".md")
    case None => file
    case Some(i) => file[..i] + file[i + 3..]
  }

  /** The evidently intended agent name: the file name without its ".md"
      extension. */
  function AgentName(file: string): (name: string)
    ensures |file| >= 3 && file[|file| - 3..] == ".md" ==> name + ".md" == file
  {
    if |file| >= 3 && file[|file| - 3..] == ".md" then file[..|file| - 3] else file
  }

  /** A file whose only ".md" is its extension gets the same name either way. */
  lemma AgentNameAgrees(stem: string)
    requires !Contains(stem, ".md")
    ensures ReplaceFirstMd(stem + ".md") == AgentName(stem + ".md") == stem
  {
    var f := stem + ".md";
    assert f[|stem|..] == ".md";
    assert f[|f| - 3..] == ".md";
    forall k | 0 <= k < |stem|
      ensures !(".md" <= f[k..])
    {
      if k + 3 <= |stem| {
        assert !(".md" <= stem[k..]);
        assert f[k..k + 3] == stem[k..k + 3];
      } else if k == |stem| - 1 {
        assert f[k + 2] == 'm';
      } else {
        assert f[k + 2] == '.';
      }
    }
    assert ".md" <= f[|stem|..];
    assert IndexOf(f, ".md") == Some(|stem|);
    assert f[..|stem|] == stem;
    assert f[|stem| + 3..] == [];
  }

  /** `a.mdb.md` loses the ".md" inside its name and keeps its extension. */
  lemma ReplaceFirstMdInsideName()
    ensures ReplaceFirstMd("a.mdb.md") == "ab.md"
    ensures AgentName("a.mdb.md") == "a.mdb"
  {
    var f := "a.mdb.md";
    assert f[0..] == f && f[0] == 'a';
    assert !(".md" <= f[0..]);
    assert ".md" <= f[1..];
    assert IndexOf(f, ".md") == Some(1);
    assert f[..1] + f[4..] == "ab.md";
    assert f[|f| - 3..] == ".md";
  }

  // ---------------------------------------------------------------------------
  // The agent records built by main, and their grouping

  datatype Agent = Agent(name: string, slug: string, frontmatter: DocsFrontmatter.AgentHeader,
                         content: string, category: string, modelTier: string)

  /** The record `main` pushes for the agent file `file` holding `content`. */
  function MakeAgent(file: string, content: string): Agent {
    var (fm, body) := DocsFrontmatter.ParseAgent(content);
    var name := ReplaceFirstMd(file);
    Agent(name, name, fm, Trim(body), AgentCategory(name, fm.description), ModelTier(fm.model))
  }

  /** The agent record: the name is the file name with its first ".md"
      removed, the content the trimmed body, the tier one of the three, and the category the label of a rule
      or `other`. */
  lemma MakeAgentFields(file: string, content: string)
    ensures var a := MakeAgent(file, content);
      a.slug == a.name && a.name == ReplaceFirstMd(file) &&
      a.frontmatter == DocsFrontmatter.ParseAgent(content).0 &&
      a.content == Trim(DocsFrontmatter.ParseAgent(content).1) &&
      IsTier(a.modelTier) &&
      (a.category == "other" || exists i :: 0 <= i < |AgentRules| && a.category == AgentRules[i].category)
  {
    var a := MakeAgent(file, content);
    CategorizeLabel(AgentRules, Combined(a.name, a.frontmatter.description));
  }

  /** An agent file whose only ".md" is its extension is named by its stem. */
  lemma MakeAgentStemName(stem: string, content: string)
    requires !Contains(stem, ".md")
    ensures MakeAgent(stem + ".md", content).name == stem
    ensures MakeAgent(stem + ".md", content).slug == stem
  {
    AgentNameAgrees(stem);
  }

  /** `agent.frontmatter.mode || 'subagent'`, the mode shown on an agent page. */
  function ShownMode(h: DocsFrontmatter.AgentHeader): (mode: string)
    ensures h.mode.None? ==> mode == "subagent"
    ensures h.mode.Some? && h.mode.value != "" ==> mode == h.mode.value
  {
    if h.mode.Some? && h.mode.value != "" then h.mode.value else "subagent"
  }

  function AgentKey(a: Agent): string { a.category }

  /** `main`: one record per agent file, then the `byCategory` buckets. */
  method BuildAgentGroups(files: seq<(string, string)>) returns (agents: seq<Agent>, byCategory: map<string, seq<Agent>>)
    ensures |agents| == |files|
    ensures forall i :: 0 <= i < |files| ==> agents[i] == MakeAgent(files[i].0, files[i].1)
    ensures byCategory.Keys == Keys(agents, AgentKey)
    ensures forall c :: c in byCategory ==> byCategory[c] == Bucket(agents, AgentKey, c)
  {
    agents := BuildEach(files, (f: (string, string)) => MakeAgent(f.0, f.1));
    byCategory := GroupBy(agents, AgentKey);
  }

  // ---------------------------------------------------------------------------
  // generateCategoryIndex

  /** Plain lexicographic order on character codes, standing for `localeCompare`. */
  predicate NameLe(a: string, b: string)
    decreases |a|
  {
    if a == [] then true
    else if b == [] then false
    else if a[0] != b[0] then a[0] < b[0]
    else NameLe(a[1..], b[1..])
  }

  lemma {:induction false} NameLeTotal(a: string, b: string)
    ensures NameLe(a, b) || NameLe(b, a)
    decreases |a|
  {
    if a != [] && b != [] && a[0] == b[0] {
      NameLeTotal(a[1..], b[1..]);
    }
  }

  predicate SortedByName(agents: seq<Agent>) {
    forall i :: 0 < i < |agents| ==> NameLe(agents[i - 1].name, agents[i].name)
  }

  function Insert(a: Agent, sorted: seq<Agent>): (r: seq<Agent>)
    ensures |r| == |sorted| + 1
    ensures r[0] == a || (sorted != [] && r[0] == sorted[0])
    ensures multiset(r) == multiset(sorted) + multiset{a}
    decreases |sorted|
  {
    if sorted == [] || NameLe(a.name, sorted[0].name) then [a] + sorted
    else
      assert sorted == [sorted[0]] + sorted[1..];
      [sorted[0]] + Insert(a, sorted[1..])
  }

  lemma {:induction false} InsertSorted(a: Agent, sorted: seq<Agent>)
    requires SortedByName(sorted)
    ensures SortedByName(Insert(a, sorted))
    decreases |sorted|
  {
    if sorted != [] && !NameLe(a.name, sorted[0].name) {
      var rest := sorted[1..];
      InsertSorted(a, rest);
      NameLeTotal(a.name, sorted[0].name);
      var r := Insert(a, sorted);
      assert r == [sorted[0]] + Insert(a, rest);
      assert rest != [] ==> rest[0] == sorted[1];
    }
  }

  /** `agents.sort((a, b) => a.name.localeCompare(b.name))`. */
  function SortByName(agents: seq<Agent>): seq<Agent>
    decreases |agents|
  {
    if agents == [] then [] else Insert(agents[0], SortByName(agents[1..]))
  }

  /** The sort orders the agents by name and keeps exactly the same agents. */
  lemma {:induction false} SortByNameCorrect(agents: seq<Agent>)
    ensures SortedByName(SortByName(agents))
    ensures multiset(SortByName(agents)) == multiset(agents)
    decreases |agents|
  {
    if agents != [] {
      SortByNameCorrect(agents[1..]);
      InsertSorted(agents[0], SortByName(agents[1..]));
      assert agents == [agents[0]] + agents[1..];
    }
  }

  /** `description.slice(0, 80)` followed by "..." when the description is longer. */
  function DescriptionCell(d: string): (cell: string)
  {
    if |d| > 80 then d[..80] + "..." else d
  }

  /** The cell shows the whole description when it fits in 80 characters, and
      otherwise its first 80 characters and an ellipsis. */
  lemma DescriptionCellSpec(d: string)
    ensures |d| <= 80 ==> DescriptionCell(d) == d
    ensures |d| > 80 <==> |DescriptionCell(d)| == 83 && DescriptionCell(d)[..80] == d[..80] &&
                          DescriptionCell(d)[80..] == "..."
    ensures |DescriptionCell(d)| <= 83
  {
  }

  /** One row of a category index. */
  function IndexRow(a: Agent): string {
    "| [" + SlugToTitle(a.name) + "](./" + a.name + ") | " + a.modelTier + " | " +
    DescriptionCell(a.frontmatter.description) + " |"
  }

  /** The table rows of `generateCategoryIndex`, after the sort. */
  function IndexRows(agents: seq<Agent>): (rows: seq<string>)
    ensures |rows| == |agents|
  {
    var sorted := SortByName(agents);
    assert |sorted| == |agents| by {
      SortByNameCorrect(agents);
      assert |multiset(sorted)| == |multiset(agents)|;
    }
    seq(|sorted|, i requires 0 <= i < |sorted| => IndexRow(sorted[i]))
  }

  /** The rows follow the agents in name order: row `i` is the row of the
      `i`-th agent of a name-sorted permutation of the bucket. */
  lemma IndexRowsOrdered(agents: seq<Agent>)
    ensures var sorted := SortByName(agents);
      SortedByName(sorted) && multiset(sorted) == multiset(agents) &&
      |IndexRows(agents)| == |sorted| &&
      forall i :: 0 <= i < |sorted| ==> IndexRows(agents)[i] == IndexRow(sorted[i])
  {
    SortByNameCorrect(agents);
    var sorted := SortByName(agents);
    assert |multiset(sorted)| == |multiset(agents)|;
  }
}
