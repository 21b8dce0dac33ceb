# prima-delivery build pipeline, modelled in Dafny

The prima-delivery repository keeps its agents and skills as markdown files.
Each file starts with a `---`-delimited YAML header. A set of scripts turns
these files into four outputs:

- another tool's agent format (`scripts/convert-agents.ts`);
- a validated, de-duplicated skill tree (`scripts/convert-skills.ts`);
- the loader's `opencode.json` agent map (`scripts/build.ts`);
- the documentation-site pages for skills and agents
  (`docs-site/scripts/generate-skill-docs.ts`, `docs-site/scripts/generate-agent-docs.ts`).

This project models the logic of those scripts with the file system taken out.
The per-file loops run over sequences of (path, content) pairs. The YAML library
is a parameter `parse: string -> Parsed`. It yields either a parse error or a
document: a mapping of header fields, an empty (`null`) document, or a scalar.
Serialisation (`stringifyYaml`) is a parameter too.

Modules, one per concern:

- `Text` (text.dfy): the string operations the scripts rely on. It covers
  ASCII `toLowerCase`/`toUpperCase`, `includes`/`indexOf`, `trim` with the
  JavaScript whitespace set, `split`/`join` and `basename`.
- `Yaml` (yaml.dfy): header values, JavaScript truthiness, and the field map
  read from a parsed document.
- `Frontmatter` (frontmatter.dfy): the two header regexes, modelled exactly.
  `SplitHeader` is `^---\r?\n([\s\S]*?)\r?\n---\r?\n?([\s\S]*)$` (the lazy group
  ends at the first closing delimiter). `SplitDocs` is the docs-site form
  `^---\n([\s\S]*?)\n---\n([\s\S]*)$`.
- `AgentTools` (tools.dfy): `parseTools`. A tool list is tokenised into a
  ten-flag record that is filled in a loop.
- `ConvertAgents` (convert_agents.dfy): `MODEL_MAP`, `COLOR_MAP`,
  `convertFrontmatter`, the guards of `parseMarkdownWithFrontmatter`,
  `convertAgent`, and the result loop and summary of `main`.
- `ConvertSkills` (convert_skills.dfy): the name and description validators,
  the result record built step by step by
  `validateSkill`/`validateAndCopySkill`, and `main`'s duplicate-name marking
  and summary.
- `DocsCommon` (docs_common.dfy): what the two generators share.
  - First-match-wins categorisation over ordered rules of substring patterns,
    with `machine.?learning` as its own pattern.
  - The position tables' default, `slugToTitle`, `escapeYamlString`, and
    `escapeMarkdownContent` as a leftmost, non-overlapping scan.
  - Grouping into per-category buckets.
- `DocsFrontmatter` (docs_frontmatter.dfy): the line-regex readers of
  `parseFrontmatter`. They cover `name:\s*([^\n]+)`, `mode:\s*(\w+)` and the
  continued-line `description:` reader.
- `SkillDocs` (skill_docs.dfy) and `AgentDocs` (agent_docs.dfy): each
  generator's own rules, position table, records and grouping.
  - Skills also have `extractUseTriggers`.
  - Agents also have `getModelTier`, the model counts, the name sort and the
    description cell of `generateCategoryIndex`. The generator's `main`
    never calls `generateCategoryIndex`, so the rows about it (SortByNameCorrect,
    DescriptionCellSpec, IndexRowsOrdered) describe a function whose output
    is not written anywhere.
- `BuildConfig` (build_config.dfy): `generateOpenCodeConfig`, a scan loop that
  folds accepted agent files into the `agent` map. The map is a plain object
  literal, so the key `__proto__` (the file `__proto__.md`) goes to the
  prototype setter and never becomes an own entry; the model drops it too.

Where the source fills a record or a collection in a loop, the model is a
method with a loop (`ParseTools`, `EnableTokens`, `ConvertFrontmatter`,
`ValidateSkillFile`, `ValidateAll`, `CategorizeText`, `PushCleaned`, `GroupBy`,
`GenerateConfig`, …). Each is proved equal to a specification function, and the
properties are proved as lemmas about that function.

## Model

| member | source | states |
|---|---|---|
| Frontmatter.SplitHeader | scripts/convert-agents.ts:182 | no match exactly when the opening `---` line or a closing `\r?\n---` is missing; otherwise the parts concatenate back to the content, the YAML part holds no closing delimiter (lazy match), and at most one line break follows the close |
| Frontmatter.SplitHeaderAssembled | scripts/convert-skills.ts:74-87 | a header `---\n y \n---\n b` whose YAML has no `---` line splits back into exactly `y` and `b` |
| Frontmatter.SplitDocs | docs-site/scripts/generate-skill-docs.ts:100 | no match exactly when the content lacks the `---\n` opening or a later `\n---\n`; otherwise content = `---\n` + yaml + `\n---\n` + body, with the first delimiter chosen |
| Frontmatter.SplitDocsAssembled | docs-site/scripts/generate-agent-docs.ts:66-76 | assembling a header and a body and splitting again gives back the same YAML and body |
| AgentTools.ParseTools | scripts/convert-agents.ts:59-131 | the loop-built result equals the tool-list specification `ParseToolsOf` |
| AgentTools.EnableTokens | scripts/convert-agents.ts:93-126 | the flag record filled token by token equals the fold of the switch over the tokens' keywords, starting from all flags false |
| AgentTools.ParseToolsCharacterised | scripts/convert-agents.ts:60-72 | a missing, falsy or empty-array input gives no record; otherwise a record exists exactly when some token is recognised, and each of its ten flags is on exactly when some token names that tool |
| AgentTools.ParseToolsOf | scripts/convert-agents.ts:129-130 | any record returned has at least one flag on |
| AgentTools.AnyEnabledIffKnown | scripts/convert-agents.ts:129-130 | after the switch, some flag is on exactly when some keyword was recognised |
| AgentTools.ParseToolsArray | scripts/convert-agents.ts:64-66 | a non-empty array gives the same result as its comma-joined string |
| AgentTools.ParseToolsIgnoresCase | scripts/convert-agents.ts:74-77 | lower-casing the input first does not change the result |
| AgentTools.SeparatorsAndCase | scripts/convert-agents.ts:74-77 | two words separated by any run of commas or whitespace give the same record whatever the separators and the letter case |
| AgentTools.TokensAtSeparator | scripts/convert-agents.ts:76 | a comma or whitespace character splits the token list: the tokens of `a c b` are the tokens of `a` followed by those of `b` |
| AgentTools.SameRecognisedTokensSameTools | scripts/convert-agents.ts:93-126 | two strings whose tokens contain the same recognised names give the same result: order, repetition and unknown tokens do not matter |
| AgentTools.Synonyms | scripts/convert-agents.ts:116-124 | "web" and "webfetch" set only `webfetch`; "todo" and "todowrite" set both todo flags; "todoread" is not recognised |
| AgentTools.WebWordSetsOnlyWebfetch | scripts/convert-agents.ts:116-118 | a single word reading "web" or "webfetch" in any case gives the record with `webfetch` alone |
| AgentTools.TodoWordSetsBoth | scripts/convert-agents.ts:120-124 | a single word reading "todo" or "todowrite" gives the record with `todowrite` and `todoread` |
| AgentTools.TodoreadWordUnknown | scripts/convert-agents.ts:120-124 | the single word "todoread" sets nothing, so the result is absent |
| AgentTools.EnableGet | scripts/convert-agents.ts:93-126 | one switch step keeps every flag that was on and turns on exactly the tools the keyword names |
| ConvertAgents.ModelMapValuesQualified | scripts/convert-agents.ts:37-41 | every mapped model id has the provider/model form (contains '/') |
| ConvertAgents.ColorMapValuesHex | scripts/convert-agents.ts:43-56 | every mapped colour is a `#`-prefixed value |
| ConvertAgents.MapModel | scripts/convert-agents.ts:141-149 | the table is indexed as a plain object: an own entry of the lower-case form gives its id; a lower-case form that only `Object.prototype` has (`constructor`, `__proto__`) gives that inherited property; otherwise the model is kept when it contains '/' and omitted when it does not; a string result always contains '/' |
| ConvertAgents.MapColor | scripts/convert-agents.ts:152-159 | a `#` value is kept verbatim; otherwise an own table entry of its lower-case form gives the table's hex value, an inherited prototype property gives that property, and anything else falls back to the raw value |
| ConvertAgents.PrototypeNamesConverted | scripts/convert-agents.ts:142-157 | the model `Constructor` and the colour `constructor` are converted to the inherited `constructor` property, not to a string |
| ConvertAgents.MapModelIdempotent | scripts/convert-agents.ts:141-149 | converting a model converted to a string again changes nothing |
| ConvertAgents.MapColorIdempotent | scripts/convert-agents.ts:152-159 | converting a non-empty colour converted to a string again changes nothing |
| ConvertAgents.ConvertFrontmatter | scripts/convert-agents.ts:134-168 | the output object built field by field, with the tables looked up as plain objects, equals the specification `ConvertedHeader` |
| ConvertAgents.ConvertedHeaderShape | scripts/convert-agents.ts:135-165 | the mode is always `subagent` and the description is copied unchanged; a string model is in provider/model form; `model` (or `color`) holds a prototype property exactly when its lower-case form is a prototype name the table does not define (for the colour, when it does not start with '#'); `tools` is the result of `parseTools`; a colour is present exactly when the header has a truthy one |
| ConvertAgents.ConvertedHeaderTotal | scripts/convert-agents.ts:141-159 | the conversion fails only on a truthy `model` or `color` that is not a string |
| ConvertAgents.ParseMarkdown | scripts/convert-agents.ts:171-194 | a header is returned only for content whose trimmed length is at least 10, that matches the header regex, and whose YAML part parses to a document; the body is the regex's second group |
| ConvertAgents.StartsWithGuardRedundant | scripts/convert-agents.ts:178-182 | content that matches the regex also passes the `trim().startsWith('---')` guard |
| ConvertAgents.ParseMarkdownAssembled | scripts/convert-agents.ts:171-194 | an assembled header with a parsable YAML part of two or more characters is accepted, with its document and body |
| ConvertAgents.ConvertAgent | scripts/convert-agents.ts:197-209 | content without a usable header fails with the invalid-frontmatter error; otherwise the parsed document decides the result |
| ConvertAgents.ConvertParsed | scripts/convert-agents.ts:211-246 | the result names its source file, and success holds exactly when there is no error, exactly when there is a destination, and exactly when there is output |
| ConvertAgents.ConvertParsedSuccess | scripts/convert-agents.ts:211-238 | conversion succeeds exactly for a mapping with a truthy name and description whose header converts; the output is then the new header (with plain-object table lookups) followed by the unchanged body, and the result carries the header's name |
| ConvertAgents.ConvertParsedMissing | scripts/convert-agents.ts:213-220 | a header without a truthy name or description fails with the missing-fields error |
| ConvertAgents.ConvertAll | scripts/convert-agents.ts:270-280 | one result per file, in file order, each that file's conversion |
| ConvertAgents.Summary | scripts/convert-agents.ts:283-284 | the success and failure counts add up to the number of results |
| ConvertSkills.NamePatternIffWellFormed | scripts/convert-skills.ts:47-53 | the pattern `^[a-z0-9]+(-[a-z0-9]+)*$` accepts exactly the non-empty strings of lower-case letters, digits and single inner hyphens (no leading, trailing or doubled hyphen) |
| ConvertSkills.SkillNameAccepted | scripts/convert-skills.ts:32-56 | a string name is accepted exactly when it is well formed and at most 64 characters long |
| ConvertSkills.SkillNameErrorOrder | scripts/convert-skills.ts:39-53 | one error per call, in precedence order: required for the empty name, then the length error, then the pattern error |
| ConvertSkills.ValidateDescription | scripts/convert-skills.ts:58-71 | an accepted description is truthy |
| ConvertSkills.DescriptionAccepted | scripts/convert-skills.ts:58-71 | a string description is accepted exactly when its length is 1 to 1024; a longer one gets the length error |
| ConvertSkills.ValidateSkillFile | scripts/convert-skills.ts:90-167 | the record built step by step, including the catch of a `TypeError` thrown by `join` on a valid skill whose name is not a string, equals the specification `SkillOutcome` |
| ConvertSkills.CheckName | scripts/convert-skills.ts:116-134 | the name step turns `valid` off exactly when it records a name error, records the mismatch warning, and takes the header's name when there is one |
| ConvertSkills.CheckDescription | scripts/convert-skills.ts:137-151 | the description step turns `valid` off exactly when it records an error, adds the trigger hint as a warning only, and throws exactly for a truthy non-string description |
| ConvertSkills.OutcomeConsistent | scripts/convert-skills.ts:94-164 | `valid` holds exactly when the error list is empty; there is a destination exactly when the skill is valid and is being copied; the source is the file's path |
| ConvertSkills.InvalidHeaderOneError | scripts/convert-skills.ts:107-111 | a file without a parsable header gets exactly the invalid-format error, no warning, and its directory's name |
| ConvertSkills.ValidityIgnoresWarnings | scripts/convert-skills.ts:127-131 | in one mode, neither the directory name (mismatch warning) nor the destination base affects `valid` or the errors |
| ConvertSkills.ModesDifferOnlyAtJoin | scripts/convert-skills.ts:153-166 | copying keeps a skill valid exactly when checking alone finds it valid and its name is a string; a valid skill with a non-string name gets the one `TypeError` from `join`; an invalid skill gets the same errors in both modes |
| ConvertSkills.NumericNameNotCopied | scripts/convert-skills.ts:116-166 | `name: 123` passes every naming rule when only checking, yet the copy fails with the `TypeError`, no destination and the name "123" |
| ConvertSkills.ValidIffRules | scripts/convert-skills.ts:116-151 | with a string name and description, the skill is valid exactly when the name is well formed and at most 64 long and the description is 1 to 1024 long |
| ConvertSkills.DestinationFromHeaderName | scripts/convert-skills.ts:154-159 | a skill valid when copied has a string `name` in its header and is named after it; that name passed the pattern, has no '/', and the skill is copied to `destBase/name` |
| ConvertSkills.TriggerHint | scripts/convert-skills.ts:147-150 | the trigger hint is the last warning exactly when a string description never contains "use" in any case |
| ConvertSkills.ValidateAll | scripts/convert-skills.ts:196-228 | one result per file, in order; each is the file's validation with the duplicate warning added exactly when an earlier result had the same name |
| ConvertSkills.MarkedKeeps | scripts/convert-skills.ts:202-205 | the duplicate check only appends a warning: validity, errors, name and destination are kept, and the first result with a name is unchanged |
| ConvertSkills.DuplicatesCount | scripts/convert-skills.ts:197-208 | the results given the duplicate warning number the results minus the distinct names |
| ConvertSkills.ValidInvalidPartition | scripts/convert-skills.ts:231-233 | valid + invalid = total |
| ConvertSkills.SummaryAfterMarking | scripts/convert-skills.ts:197-233 | duplicate marking leaves the valid and invalid counts as they were and never lowers the count with warnings |
| DocsCommon.FirstMatch | docs-site/scripts/generate-skill-docs.ts:136-139 | the index found is the first matching rule from the start position; none is found only when no rule matches |
| DocsCommon.CategorizeText | docs-site/scripts/generate-agent-docs.ts:106-116 | the loop returns the label of the first rule in declaration order that matches, or `other` when none does |
| DocsCommon.CategorizeLabel | docs-site/scripts/generate-skill-docs.ts:133-143 | the category is always some rule's label or `other` |
| DocsCommon.EarlierRuleWins | docs-site/scripts/generate-skill-docs.ts:136-139 | a matching rule decides the category when no earlier rule matches |
| DocsCommon.MachineLearningSpellings | docs-site/scripts/generate-agent-docs.ts:50 | `machine.?learning` matches "machinelearning" and "machine" plus any one character that is not a line terminator plus "learning" |
| DocsCommon.MachineNewlineLearning | docs-site/scripts/generate-agent-docs.ts:50 | `.` does not match a newline, so "machine\nlearning" does not match there |
| DocsCommon.Position | docs-site/scripts/generate-skill-docs.ts:212-243 | a listed category with a non-zero position gets it, and an unlisted one gets 50 |
| DocsCommon.SlugToTitleSpec | docs-site/scripts/generate-agent-docs.ts:126-131 | the title has one word per '-'-separated segment, joined with single spaces, each segment with its first character upper-cased and the rest unchanged |
| DocsCommon.CategoryTitleLastSegment | docs-site/scripts/generate-agent-docs.ts:192 | an index title is the title of the category's last '/' segment |
| DocsCommon.EscapeYamlString | docs-site/scripts/generate-skill-docs.ts:152-158 | text that needs no quoting is returned unchanged, and the result never contains a newline |
| DocsCommon.EscapeYamlStringQuotes | docs-site/scripts/generate-agent-docs.ts:133-139 | text that needs quoting is wrapped in double quotes, and every inner double quote is preceded by a backslash |
| DocsCommon.EscapeYamlStringTrailingBackslash | docs-site/scripts/generate-skill-docs.ts:152-158 | as written, `a:\` is quoted to `"a:\"`, which does not read back as a YAML double-quoted scalar; the corrected escape reads back as `a:\` |
| DocsCommon.EscapeYamlStringQuotedRoundTrip | docs-site/scripts/generate-skill-docs.ts:152-158 | with backslashes escaped too, reading the quoted scalar back gives the text with newlines as spaces |
| DocsCommon.ScanMatches | docs-site/scripts/generate-skill-docs.ts:163 | every `{{…}}` found by the leftmost scan has a non-empty inner part without '}' |
| DocsCommon.ScanOriginal | docs-site/scripts/generate-skill-docs.ts:160-164 | the scan's pieces put back together give the input, so the escape changes nothing but the matches |
| DocsCommon.EscapeMarkdownNoBraces | docs-site/scripts/generate-skill-docs.ts:160-164 | text with no "{{" is left unchanged |
| DocsCommon.EscapeMarkdownMatch | docs-site/scripts/generate-agent-docs.ts:141-145 | a leading `{{x}}` (x non-empty, no '}') is wrapped in backticks and the rest is escaped independently |
| DocsCommon.BuildEach | docs-site/scripts/generate-agent-docs.ts:227-244 | one record per input, in input order |
| DocsCommon.GroupBy | docs-site/scripts/generate-skill-docs.ts:338-344 | the dictionary has exactly the categories that occur as keys, and each bucket is the subsequence of records with that category in input order |
| DocsCommon.ExactlyOneBucket | docs-site/scripts/generate-agent-docs.ts:246-253 | every record is in its own category's bucket and in no other |
| DocsCommon.BucketConcat | docs-site/scripts/generate-skill-docs.ts:338-344 | bucketing preserves input order: the bucket of a concatenation is the concatenation of the buckets |
| DocsFrontmatter.MatchAt | docs-site/scripts/generate-agent-docs.ts:82-101 | a match position is the end of an occurrence of the key, at which the value reader succeeds |
| DocsFrontmatter.SearchWord | docs-site/scripts/generate-agent-docs.ts:92-95 | a `mode` read by `(\w+)` is a non-empty run of word characters |
| DocsFrontmatter.SearchLine | docs-site/scripts/generate-agent-docs.ts:98-101 | a `model` or `name` read from one line has no line break and is trimmed |
| DocsFrontmatter.SearchAbsent | docs-site/scripts/generate-skill-docs.ts:115-128 | a key that does not occur reads as absent |
| DocsFrontmatter.ContinuedTwoLines | docs-site/scripts/generate-skill-docs.ts:121-128 | a description continued on an indented second line is read as the two lines joined by one space |
| DocsFrontmatter.SearchContinued | docs-site/scripts/generate-skill-docs.ts:121-128 | wherever `description:` first occurs, when whitespace, a first line, any number of indented non-blank lines and then an unindented rest follow it, the value read is the trimmed lines joined with one space |
| DocsFrontmatter.SkillHeaderContinued | docs-site/scripts/generate-skill-docs.ts:99-128 | the same through the skill generator's `parseFrontmatter`, for a header block between the delimiters |
| DocsFrontmatter.ParseSkillHeader | docs-site/scripts/generate-skill-docs.ts:99-131 | without delimiters the name and description are empty and the body is the whole content; otherwise the body is the text after the header |
| DocsFrontmatter.ParseAgentHeader | docs-site/scripts/generate-agent-docs.ts:65-104 | without delimiters the description is '', mode and model are absent and the body is the content; otherwise each field is read from the header by its own regex |
| SkillDocs.CategorizeSkill | docs-site/scripts/generate-skill-docs.ts:133-143 | the category of the lower-cased "name description" is one of the rules' labels or `other` |
| SkillDocs.PythonBeforeSecurity | docs-site/scripts/generate-skill-docs.ts:27-43 | text that mentions both python and security is labelled `python`, although the security rule matches too |
| SkillDocs.SkillPositionTable | docs-site/scripts/generate-skill-docs.ts:212-243 | `other` is at 99, listed labels at their table value and anything unlisted at 50; every rule's label is listed |
| SkillDocs.ExtractUseTriggers | docs-site/scripts/generate-skill-docs.ts:166-180 | at most five triggers, none without a captured block, each non-empty and the cleaned form of one of the block's first five non-blank lines |
| SkillDocs.PushCleaned | docs-site/scripts/generate-skill-docs.ts:172-176 | the loop keeps exactly the non-empty cleaned lines, in order |
| SkillDocs.CleanedBullet | docs-site/scripts/generate-skill-docs.ts:174 | a line "- x" or "* x" is cleaned to the trimmed x |
| SkillDocs.MakeSkillFields | docs-site/scripts/generate-skill-docs.ts:322-335 | the name falls back to the directory when the header has none, the slug is the directory, the content is the trimmed body, and the category is a rule's label or `other` |
| SkillDocs.BuildSkillGroups | docs-site/scripts/generate-skill-docs.ts:314-344 | one record per skill directory in order, grouped so that each bucket holds exactly the records of its category in order |
| AgentDocs.CategorizeAgent | docs-site/scripts/generate-agent-docs.ts:106-116 | the category is one of the rules' labels or `other` |
| AgentDocs.ArchitectBeforeSecurity | docs-site/scripts/generate-agent-docs.ts:29-44 | text mentioning both architect and security is labelled `architecture`, shadowing the security rule |
| AgentDocs.SecurityArchitect | docs-site/scripts/generate-agent-docs.ts:109-113 | the agent named "security-architect" is labelled `architecture` whatever its description |
| AgentDocs.AgentPositionTable | docs-site/scripts/generate-agent-docs.ts:286-308 | `other` is at 99, listed labels (including the `languages/…` paths) at their table value, and anything unlisted at 50; every rule's label is listed |
| AgentDocs.ModelTierCases | docs-site/scripts/generate-agent-docs.ts:118-124 | no model gives sonnet; a model containing "opus" gives opus, checked before haiku; otherwise "haiku" gives haiku and anything else sonnet |
| AgentDocs.TierCountsSum | docs-site/scripts/generate-agent-docs.ts:319-323 | the opus, sonnet and haiku counts add up to the number of agents |
| AgentDocs.ReplaceFirstMdInsideName | docs-site/scripts/generate-agent-docs.ts:232 | as written, "a.mdb.md" is named "ab.md"; the corrected name is "a.mdb" |
| AgentDocs.AgentNameAgrees | docs-site/scripts/generate-agent-docs.ts:232 | for a file whose only ".md" is its extension, the name as written and the corrected name agree and are the stem |
| AgentDocs.AgentName | docs-site/scripts/generate-agent-docs.ts:232 | a file ending in ".md" is its name followed by ".md" |
| AgentDocs.MakeAgentFields | docs-site/scripts/generate-agent-docs.ts:227-244 | the name is the file name with its first ".md" removed, the slug is the name, the header is the one `parseFrontmatter` reads, the content is the trimmed body, the tier is one of the three, and the category is a rule's label or `other` |
| AgentDocs.MakeAgentStemName | docs-site/scripts/generate-agent-docs.ts:232 | for `stem.md` whose stem holds no ".md", the agent's name and slug are the stem |
| AgentDocs.ShownMode | docs-site/scripts/generate-agent-docs.ts:187 | an agent page shows `subagent` when the header has no mode, and the header's mode otherwise |
| AgentDocs.BuildAgentGroups | docs-site/scripts/generate-agent-docs.ts:225-253 | one record per agent file in order, each named with the first ".md" removed, grouped so that each bucket holds exactly the records of its category in order |
| AgentDocs.NameLeTotal | docs-site/scripts/generate-agent-docs.ts:195 | the name order compares any two names |
| AgentDocs.SortByNameCorrect | docs-site/scripts/generate-agent-docs.ts:194-195 | the sorted agents are in name order and are a permutation of the bucket |
| AgentDocs.DescriptionCellSpec | docs-site/scripts/generate-agent-docs.ts:198 | a description of at most 80 characters is shown whole; a longer one shows its first 80 characters followed by "..." (exactly when it is longer than 80) |
| AgentDocs.IndexRowsOrdered | docs-site/scripts/generate-agent-docs.ts:194-199 | the index rows follow a name-sorted permutation of the bucket, one row per agent |
| BuildConfig.GenerateConfig | scripts/build.ts:26-67 | the map filled by the scan loop, which skips bad files and adds no own entry for the key `__proto__` (its assignment goes to the prototype setter), equals the fold `Config` of the files in scan order |
| BuildConfig.EntryFields | scripts/build.ts:45-52 | mode is the header's truthy mode or `subagent`, description the header's or '', and `model`, `tools` and `color` are present exactly when truthy in the header and then copied unchanged |
| BuildConfig.PromptNamesFile | scripts/build.ts:48 | the prompt is the fixed prefix, the file name and a closing brace, so the file name can be read back from it |
| BuildConfig.AgentKeyOfFile | scripts/build.ts:43 | the key of `stem.md` is `stem` |
| BuildConfig.ConfigKeys | scripts/build.ts:31-56 | a key is in the map exactly when it is not `__proto__` and some accepted file has it |
| BuildConfig.LastFileWins | scripts/build.ts:43-45 | a key other than `__proto__` has its entry built from the last accepted file with that key, so a later file with the same key overwrites the earlier one; the key `__proto__` has no entry |
| BuildConfig.ProtoFileName | scripts/build.ts:43 | the file `__proto__.md` has the key `__proto__` |
| BuildConfig.ProtoFileDropped | scripts/build.ts:31-66 | a file keyed `__proto__` changes no entry, whatever its header, and the map never holds that key, so neither the written JSON nor the count sees it |
| BuildConfig.SkippedFile | scripts/build.ts:38-39 | a file without a header, or whose header fails to parse, changes no entry |

## Left out

- File-system work (`readFile`, `writeFile`, `cp`, `mkdir`, `readdirSync`,
  `statSync`, `existsSync`, `Glob.scan`). The loops run over given (path,
  content) sequences in scan order, so directory listing order is an input.
- The existence check on `SKILL.md` in the skill generator's `main`. Its input
  is the directories that have one.
- The YAML library (`parseYaml`, `stringifyYaml`) and `JSON.stringify` are
  foreign calls. Parsing is the parameter `parse`, serialisation the parameter
  `stringify`. The written document is `opencode.json`'s `agent` map as a
  Dafny map.
- Header values that are neither strings nor lists of strings are abstract
  (`Scalar`): their text and truthiness are given, not computed by `String(v)`.
- Exception messages: a caught exception becomes a fixed error value. The
  engine's message wording is not modelled.
- `toLowerCase` and `toUpperCase` are modelled on ASCII letters only.
  Strings are sequences of characters, not UTF-16 code units.
- `localeCompare` in `generateCategoryIndex` is modelled as plain
  lexicographic order on characters.
- The `.sort` calls are modelled as a function that returns a sorted
  permutation (insertion sort), not as an in-place sort of the array.
- SkillDocs.ExtractUseTriggers: the locating regex
  `(?:use when|when to use)[:\s]*\n((?:[-*]\s+[^\n]+\n?)+)` is not modelled.
  The method takes its captured bullet block, or its absence, as input.
- The page templates (`generateSkillPage`, `generateAgentPage`,
  `generateOverview`, the category index front matter) are fixed string
  interpolation. Only the index rows, titles, positions, escapes and model
  counts are modelled.
- Looking up `Object.prototype`'s properties in the `getCategoryPosition`
  tables is not modelled. A table is a Dafny map. (In `convertFrontmatter`
  the inherited lookup is modelled.)
- ConvertAgents.MapModel, ConvertAgents.MapColor: an inherited prototype
  property is an abstract value `ProtoMember(key)`; what `stringifyYaml` then
  writes for it is up to the serialiser parameter.
- The `main` of `scripts/build.ts` and `docs-site/scripts/generate-all.ts` are
  left out: they are shell-outs, `process.exit` and floating-point timing.
  The same goes for console output and status icons.
- The index page `docs-site/src/pages/index.tsx` and `docs-site/docusaurus.config.ts`
  are not part of this model (static markup and configuration).
- ConvertSkills.DestinationFromHeaderName, ConvertAgents.ConvertParsed: a
  destination is the directory, '/' and the name. `path.join`'s normalisation
  is not modelled: a trailing '/' on the directory, and '.' or '..' segments
  in it or in an agent's header name, are kept as they are.
- ConvertSkills.ValidateAll: a header name that is not a string is stored as
  its text, so the duplicate check treats `name: 5` and `name: "5"` as the same
  name, and two equal list values too. The source's `Set` compares the raw
  values and keeps them apart.
- ConvertAgents.ConvertParsed: a successful result's `name` is the header
  name's text (`ToText`), while the source stores the raw value; only the log
  line prints it, where the two agree. The destination uses the text in both.
- ConvertSkills.ValidityIgnoresWarnings: stated for two runs in the same mode
  only. Across the two modes validity differs exactly where `join` throws on
  a non-string name, which ConvertSkills.ModesDifferOnlyAtJoin states.
- DocsCommon.EscapeYamlStringQuoted: nothing in the model consumes it, because
  the page templates that call `escapeYamlString` are left out. Its round trip
  is stated on its own.

## Findings

| source | as written | input that shows it | evidently intended | confidence | as-written member | corrected member |
|---|---|---|---|---|---|---|
| docs-site/scripts/generate-skill-docs.ts:152-158 | `escapeYamlString` escapes double quotes but not backslashes (the same code is at docs-site/scripts/generate-agent-docs.ts:133-139) | `a:\` gives `"a:\"`: the closing quote reads as an escaped quote, so the front matter scalar is unterminated | escape backslashes before quotes, so the quoted scalar reads back as the text with newlines as spaces | medium, not executed | DocsCommon.EscapeYamlString, DocsCommon.EscapeYamlStringTrailingBackslash | DocsCommon.EscapeYamlStringQuoted, DocsCommon.EscapeYamlStringQuotedRoundTrip |
| scripts/convert-agents.ts:141-159 | `MODEL_MAP[model.toLowerCase()]` and `COLOR_MAP[...]` index plain objects, so inherited `Object.prototype` properties are found; ConvertAgents.MapModel, ConvertAgents.MapColor and ConvertAgents.ConvertFrontmatter model this lookup as written | model `Constructor` or colour `constructor`: the lookup yields the `Object` function instead of a string | look up own entries only (`Object.hasOwn`) and fall back as for any unknown value | medium, not executed | ConvertAgents.LookupAsWritten, ConvertAgents.ModelLookupHitsPrototype | ConvertAgents.LookupOwn, ConvertAgents.LookupOwnAgrees |
| docs-site/scripts/generate-agent-docs.ts:232 | `file.replace('.md', '')` removes the first ".md" anywhere in the file name; AgentDocs.MakeAgent models it as written | `a.mdb.md` becomes `ab.md` instead of `a.mdb` | strip the ".md" extension at the end | low, not executed | AgentDocs.ReplaceFirstMd, AgentDocs.ReplaceFirstMdInsideName | AgentDocs.AgentName, AgentDocs.AgentNameAgrees |
