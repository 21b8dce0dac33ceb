/**
 * Agent conversion: the model and colour tables, the header guards, the
 * per-file conversion with its required-field check and output assembly, and
 * the run summary. The tool list is handled by `AgentTools`.
 */
module ConvertAgents {
  import opened Text
  import opened Yaml
  import opened AgentTools
  import Frontmatter

  // ---------------------------------------------------------------------------
  // Tables

  const ModelMap: map<string, string> := map[
    "opus" := "anthropic/claude-opus-4-5",
    "sonnet" := "anthropic/claude-sonnet-4-20250514",
    "haiku" := "anthropic/claude-haiku-4-20250514"]

  const ColorMap: map<string, string> := map[
    "cyan" := "#00FFFF", "green" := "#00FF00", "yellow" := "#FFFF00", "red" := "#FF0000",
    "blue" := "#0000FF", "magenta" := "#FF00FF", "orange" := "#FFA500", "purple" := "#800080",
    "pink" := "#FFC0CB", "white" := "#FFFFFF", "gray" := "#808080", "grey" := "#808080"]

  /** Every model id in the table names its provider: it contains '/'. */
  lemma ModelMapValuesQualified()
    ensures forall k :: k in ModelMap ==> '/' in ModelMap[k]
  {
    assert ModelMap["opus"][9] == '/';
    assert ModelMap["sonnet"][9] == '/';
    assert ModelMap["haiku"][9] == '/';
  }

  /** Every colour in the table is a hex code. */
  lemma ColorMapValuesHex()
    ensures forall k :: k in ColorMap ==> |ColorMap[k]| > 0 && ColorMap[k][0] == '#'
  {
  }

  /** No table key contains '/'. */
  lemma ModelMapKeysPlain()
    ensures forall k :: k in ModelMap ==> '/' !in k
  {
  }

  // ---------------------------------------------------------------------------
  // Indexing a plain object

  /** The outcome of indexing a plain JavaScript object: an own entry, a property
      inherited from `Object.prototype` (a function or an object: truthy, never a
      string), or `undefined`. */
  datatype Lookup = Own(value: string) | Inherited | Missing

  /** The lower-case property names of `Object.prototype`. */
  const PrototypeKeys: set<string> := {"constructor", "__proto__"}

  /** `table[key]` as the source writes it. */
  function LookupAsWritten(table: map<string, string>, key: string): (r: Lookup)
    ensures key in table ==> r == Own(table[key])
    ensures key !in table ==> (r.Inherited? <==> key in PrototypeKeys)
  {
    if key in table then Own(table[key])
    else if key in PrototypeKeys then Inherited
    else Missing
  }

  /** The evidently intended lookup: own entries only. */
  function LookupOwn(table: map<string, string>, key: string): (r: Option<string>)
    ensures r.Some? <==> key in table
    ensures r.Some? ==> r.value == table[key]
  {
    if key in table then Some(table[key]) else None
  }

  /** As written, the model name `Constructor` (any case) is found in MODEL_MAP
      and the colour `constructor` in COLOR_MAP: the output field then holds the
      `Object` constructor instead of a string. */
  lemma ModelLookupHitsPrototype()
    ensures "constructor" !in ModelMap && "constructor" !in ColorMap
    ensures LookupAsWritten(ModelMap, Lower("Constructor")).Inherited?
    ensures LookupAsWritten(ColorMap, Lower("constructor")).Inherited?
  {
    assert Lower("Constructor") == "constructor";
    assert Lower("constructor") == "constructor";
  }

  /** The own-entry lookup agrees with the written one wherever the written one
      yields a string, and differs only on the prototype's property names. */
  lemma LookupOwnAgrees(table: map<string, string>, key: string)
    ensures LookupAsWritten(table, key).Own? <==> LookupOwn(table, key).Some?
    ensures LookupOwn(table, key).Some? ==> LookupAsWritten(table, key).value == LookupOwn(table, key).value
    ensures LookupOwn(table, key).None? && key !in PrototypeKeys ==> LookupAsWritten(table, key).Missing?
  {
  }

  // ---------------------------------------------------------------------------
  // convertFrontmatter

  datatype Mode = Primary | Subagent

  /** What the source writes into `model` or `color`: a string, or the property
      of `Object.prototype` that indexing a table with `key` reaches (the
      `Object` function for "constructor", the prototype itself for
      "__proto__"). */
  datatype OutValue = Plain(s: string) | ProtoMember(key: string)

  /** The OpenCode header; an absent optional key is `None`. */
  datatype OpenCodeHeader = OpenCodeHeader(description: Option<Value>, mode: Mode, model: Option<OutValue>,
                                           color: Option<OutValue>, tools: Option<Tools>)

  /** `convertFrontmatter` either yields a header or throws: `toLowerCase` is not
      a function on a truthy `model` or `color` that is not a string. */
  datatype Conversion = Converted(header: OpenCodeHeader) | NotAString(field: string)

  function Field(h: Header, k: string): Option<Value> {
    if k in h then Some(h[k]) else None
  }

  /** The `model` of the output for a truthy string `m`: the table entry when
      `MODEL_MAP[m.toLowerCase()]` is truthy (an own entry or an inherited
      property), otherwise `m` itself when it contains '/', otherwise nothing. */
  function MapModel(m: string): (r: Option<OutValue>)
    ensures r.Some? && r.value.Plain? ==> '/' in r.value.s
    ensures Lower(m) in ModelMap ==> r == Some(Plain(ModelMap[Lower(m)]))
    ensures Lower(m) !in ModelMap && Lower(m) in PrototypeKeys ==> r == Some(ProtoMember(Lower(m)))
    ensures Lower(m) !in ModelMap && Lower(m) !in PrototypeKeys ==>
      (r.Some? <==> '/' in m) && (r.Some? ==> r.value == Plain(m))
  {
    ModelMapValuesQualified();
    match LookupAsWritten(ModelMap, Lower(m))
    case Own(id) => Some(Plain(id))
    case Inherited => Some(ProtoMember(Lower(m)))
    case Missing => if '/' in m then Some(Plain(m)) else None
  }

  /** The `color` of the output for a truthy string `c`: `c` itself when it
      starts with '#', otherwise `COLOR_MAP[c.toLowerCase()] || c`. */
  function MapColor(c: string): (r: OutValue)
    ensures |c| > 0 && c[0] == '#' ==> r == Plain(c)
    ensures !(|c| > 0 && c[0] == '#') && Lower(c) in ColorMap ==> r == Plain(ColorMap[Lower(c)])
    ensures !(|c| > 0 && c[0] == '#') && Lower(c) !in ColorMap && Lower(c) in PrototypeKeys ==>
      r == ProtoMember(Lower(c))
    ensures !(|c| > 0 && c[0] == '#') && Lower(c) !in ColorMap && Lower(c) !in PrototypeKeys ==> r == Plain(c)
  {
    var mapped := match LookupAsWritten(ColorMap, Lower(c))
      case Own(hex) => Plain(hex)
      case Inherited => ProtoMember(Lower(c))
      case Missing => Plain(c);
    if |c| > 0 && c[0] == '#' then Plain(c) else mapped
  }

  /** The model `Constructor` and the colour `constructor` come out as the
      `Object` function, not as strings. */
  lemma PrototypeNamesConverted()
    ensures MapModel("Constructor") == Some(ProtoMember("constructor"))
    ensures MapColor("constructor") == ProtoMember("constructor")
  {
    ModelLookupHitsPrototype();
  }

  /** No property name of the prototype contains '/'. */
  lemma PrototypeKeysPlain()
    ensures forall k :: k in PrototypeKeys ==> '/' !in k
  {
    assert forall i :: 0 <= i < |"constructor"| ==> "constructor"[i] != '/';
    assert forall i :: 0 <= i < |"__proto__"| ==> "__proto__"[i] != '/';
  }

  /** A model id already in provider/model form is kept: converting twice is converting once. */
  lemma MapModelIdempotent(m: string)
    requires MapModel(m).Some? && MapModel(m).value.Plain?
    ensures MapModel(MapModel(m).value.s) == MapModel(m)
  {
    var r := MapModel(m).value.s;
    ModelMapKeysPlain();
    PrototypeKeysPlain();
    LowerKeepsChar(r, '/');
  }

  lemma LowerKeepsChar(s: string, c: char)
    requires c in s && !IsUpper(c)
    ensures c in Lower(s)
  {
    var i :| 0 <= i < |s| && s[i] == c;
    assert Lower(s)[i] == c;
  }

  /** A colour converted to a string converts to itself. */
  lemma MapColorIdempotent(c: string)
    requires c != [] && MapColor(c).Plain?
    ensures MapColor(MapColor(c).s) == MapColor(c)
  {
    ColorMapValuesHex();
  }

  /** The header `convertFrontmatter` produces, field by field. */
  function ConvertedHeader(h: Header): (r: Conversion)
  {
    if Present(h, "model") && !h["model"].Str? then NotAString("model")
    else if Present(h, "color") && !h["color"].Str? then NotAString("color")
    else
      Converted(OpenCodeHeader(
        Field(h, "description"),
        Subagent,
        if Present(h, "model") then MapModel(h["model"].s) else None,
        if Present(h, "color") then Some(MapColor(h["color"].s)) else None,
        ParseToolsOf(Field(h, "tools"))))
  }

  /** The imperative `convertFrontmatter`: start from description and mode, then
      assign `model`, `color` and `tools` when their conditions hold. */
  method ConvertFrontmatter(h: Header) returns (r: Conversion)
    ensures r == ConvertedHeader(h)
  {
    var opencode := OpenCodeHeader(Field(h, "description"), Subagent, None, None, None);
    if Present(h, "model") {
      if !h["model"].Str? {
        return NotAString("model");
      }
      var model := h["model"].s;
      var mapped := LookupAsWritten(ModelMap, Lower(model));
      if mapped.Own? {
        opencode := opencode.(model := Some(Plain(mapped.value)));
      } else if mapped.Inherited? {
        opencode := opencode.(model := Some(ProtoMember(Lower(model))));
      } else if '/' in model {
        opencode := opencode.(model := Some(Plain(model)));
      }
      assert opencode.model == MapModel(model);
    }
    if Present(h, "color") {
      if !h["color"].Str? {
        return NotAString("color");
      }
      var color := h["color"].s;
      var mapped := LookupAsWritten(ColorMap, Lower(color));
      opencode := opencode.(color := match mapped
        case Own(hex) => Some(Plain(hex))
        case Inherited => Some(ProtoMember(Lower(color)))
        case Missing => Some(Plain(color)));
      if |color| > 0 && color[0] == '#' {
        opencode := opencode.(color := Some(Plain(color)));
      }
      assert opencode.color == Some(MapColor(color));
    }
    var tools := ParseTools(Field(h, "tools"));
    if tools.Some? {
      opencode := opencode.(tools := tools);
    }
    assert opencode.tools == tools;
    r := Converted(opencode);
  }

  /** The output is always a subagent and carries the description unchanged; a
      string `model` is in provider/model form, and `model` or `color` holds a
      prototype property exactly when the lower-cased value names one that the
      table does not define (and, for the colour, it does not start with '#');
      `tools` is present exactly when `parseTools` yields a record. */
  lemma ConvertedHeaderShape(h: Header)
    requires ConvertedHeader(h).Converted?
    ensures ConvertedHeader(h).header.mode == Subagent
    ensures ConvertedHeader(h).header.description == Field(h, "description")
    ensures var m := ConvertedHeader(h).header.model;
      m.Some? && m.value.Plain? ==> '/' in m.value.s
    ensures var m := ConvertedHeader(h).header.model;
      (m.Some? && m.value.ProtoMember?) <==>
      (Present(h, "model") && Lower(h["model"].s) !in ModelMap && Lower(h["model"].s) in PrototypeKeys)
    ensures var c := ConvertedHeader(h).header.color;
      (c.Some? && c.value.ProtoMember?) <==>
      (Present(h, "color") && !(|h["color"].s| > 0 && h["color"].s[0] == '#') &&
       Lower(h["color"].s) !in ColorMap && Lower(h["color"].s) in PrototypeKeys)
    ensures ConvertedHeader(h).header.tools == ParseToolsOf(Field(h, "tools"))
    ensures ConvertedHeader(h).header.color.Some? <==> Present(h, "color")
  {
  }

  /** A header whose `model` and `color` are strings or falsy is always converted. */
  lemma ConvertedHeaderTotal(h: Header)
    requires "model" in h && Truthy(h["model"]) ==> h["model"].Str?
    requires "color" in h && Truthy(h["color"]) ==> h["color"].Str?
    ensures ConvertedHeader(h).Converted?
  {
  }

  // ---------------------------------------------------------------------------
  // parseMarkdownWithFrontmatter

  /** The guards and the split of `parseMarkdownWithFrontmatter`; `parse` is the
      YAML library. */
  function ParseMarkdown(content: string, parse: string -> Parsed): (r: Option<(Document, string)>)
    ensures r.Some? ==> |Trim(content)| >= 10
    ensures r.Some? ==> Frontmatter.SplitHeader(content).Some?
    ensures r.Some? ==> parse(Frontmatter.SplitHeader(content).value.yaml) == Doc(r.value.0)
    ensures r.Some? ==> r.value.1 == Frontmatter.SplitHeader(content).value.body
  {
    if content == [] || |Trim(content)| < 10 then None
    else if !Frontmatter.DashesAt(Trim(content), 0) then None  // startsWith('---')
    else match Frontmatter.SplitHeader(content)
      case None => None
      case Some(p) =>
        match parse(p.yaml)
        case ParseError => None
        case Doc(d) => Some((d, p.body))
  }

  lemma TrimStartNoSpace(s: string)
    requires s != [] && !IsSpace(s[0])
    ensures TrimStart(s) == s
  {
  }

  /** The `startsWith('---')` guard is redundant: a file whose opening
      delimiter the regex can match already starts with `---`, and trimming
      leaves that prefix in place. */
  lemma StartsWithGuardRedundant(content: string)
    requires Frontmatter.OpenLen(content) > 0
    ensures Frontmatter.DashesAt(Trim(content), 0)
  {
    assert Frontmatter.DashesAt(content, 0);
    TrimKeeps(content, 2);
    TrimStartNoSpace(content);
  }

  /** `trim()` keeps everything up to the last non-whitespace character. */
  lemma TrimKeeps(s: string, j: nat)
    requires j < |s| && !IsSpace(s[0]) && !IsSpace(s[j])
    ensures |Trim(s)| > j
  {
    TrimStartNoSpace(s);
  }

  /** Assembling a header block `y` (at least two characters, no line starting
      with `---`) and a body, then parsing, gives back the parsed block and the body. */
  lemma ParseMarkdownAssembled(y: string, b: string, parse: string -> Parsed, d: Document)
    requires |y| >= 2 && Frontmatter.NoDashLine(y) && y[|y| - 1] != '\r'
    requires parse(y) == Doc(d)
    ensures ParseMarkdown("---\n" + y + "\n---\n" + b, parse) == Some((d, b))
  {
    var c := "---\n" + y + "\n---\n" + b;
    Frontmatter.SplitHeaderAssembled(y, b);
    assert c[0] == '-' && c[7 + |y|] == '-';
    TrimKeeps(c, 7 + |y|);
    StartsWithGuardRedundant(c);
  }

  // ---------------------------------------------------------------------------
  // convertAgent

  /** Why a file is rejected. `Thrown` is the `catch` branch: property access on
      a `null` header, or `toLowerCase` on a non-string. */
  datatype Failure = InvalidFrontmatter | MissingFields | Thrown

  function Message(f: Failure): string {
    match f
    case InvalidFrontmatter => "Invalid frontmatter format"
    case MissingFields => "Missing required fields (name or description)"
    case Thrown => "TypeError"
  }

  /** `ConversionResult`, with the text the file write would receive. */
  datatype ConversionResult = ConversionResult(success: bool, name: string, source: string,
                                               dest: Option<string>, error: Option<Failure>,
                                               output: Option<string>)

  function Failed(path: string, f: Failure): ConversionResult {
    ConversionResult(false, Basename(path), path, None, Some(f), None)
  }

  /** `convertAgent(sourcePath, destDir)` on the file's content; `parse` and
      `stringify` are the YAML library. */
  function ConvertAgent(path: string, content: string, destDir: string,
                        parse: string -> Parsed, stringify: OpenCodeHeader -> string): (r: ConversionResult)
    ensures ParseMarkdown(content, parse).None? ==> r == Failed(path, InvalidFrontmatter)
    ensures ParseMarkdown(content, parse).Some? ==>
      r == ConvertParsed(path, ParseMarkdown(content, parse).value.0, ParseMarkdown(content, parse).value.1, destDir, stringify)
  {
    match ParseMarkdown(content, parse)
    case None => Failed(path, InvalidFrontmatter)
    case Some((doc, body)) => ConvertParsed(path, doc, body, destDir, stringify)
  }

  /** The rest of `convertAgent` once the header has been split off and parsed. */
  function ConvertParsed(path: string, doc: Document, body: string, destDir: string,
                         stringify: OpenCodeHeader -> string): (r: ConversionResult)
    ensures r.source == path
    ensures r.success <==> r.error.None?
    ensures r.success <==> r.dest.Some?
    ensures r.success <==> r.output.Some?
  {
    if doc.NullDoc? then Failed(path, Thrown)
    else
      var h := FieldsOf(doc);
      if !Present(h, "name") || !Present(h, "description") then Failed(path, MissingFields)
      else match ConvertedHeader(h)
        case NotAString(_) => Failed(path, Thrown)
        case Converted(fm) =>
          var name := ToText(h["name"]);
          ConversionResult(true, name, path, Some(destDir + "/" + name + ".md"), None,
                           Some("---\n" + stringify(fm) + "---\n" + body))
  }

  /** A file is converted exactly when its header parses to a mapping with a
      truthy name and description whose `model` and `color` convert; the output
      is then the new header followed by the original body, unchanged, and the
      result is named after the header's name. */
  lemma ConvertParsedSuccess(path: string, doc: Document, body: string, destDir: string,
                             stringify: OpenCodeHeader -> string)
    ensures ConvertParsed(path, doc, body, destDir, stringify).success <==>
      doc.Mapping? && Present(doc.fields, "name") && Present(doc.fields, "description") &&
      ConvertedHeader(doc.fields).Converted?
    ensures ConvertParsed(path, doc, body, destDir, stringify).success ==>
      ConvertParsed(path, doc, body, destDir, stringify).output ==
        Some("---\n" + stringify(ConvertedHeader(doc.fields).header) + "---\n" + body) &&
      ConvertParsed(path, doc, body, destDir, stringify).name == ToText(doc.fields["name"])
  {
  }

  /** A header without a truthy name or description is rejected with the
      missing-fields error; a scalar header has no fields at all. */
  lemma ConvertParsedMissing(path: string, doc: Document, body: string, destDir: string,
                             stringify: OpenCodeHeader -> string)
    requires !doc.NullDoc?
    requires !Present(FieldsOf(doc), "name") || !Present(FieldsOf(doc), "description")
    ensures ConvertParsed(path, doc, body, destDir, stringify) == Failed(path, MissingFields)
  {
  }

  // ---------------------------------------------------------------------------
  // main

  function CountSuccess(results: seq<ConversionResult>): (n: nat)
    ensures n <= |results|
    decreases |results|
  {
    if results == [] then 0
    else CountSuccess(results[..|results| - 1]) + (if results[|results| - 1].success then 1 else 0)
  }

  function CountFailed(results: seq<ConversionResult>): (n: nat)
    ensures n <= |results|
    decreases |results|
  {
    if results == [] then 0
    else CountFailed(results[..|results| - 1]) + (if results[|results| - 1].success then 0 else 1)
  }

  /** Successes and failures partition the results. */
  lemma {:induction false} CountsPartition(results: seq<ConversionResult>)
    ensures CountSuccess(results) + CountFailed(results) == |results|
    decreases |results|
  {
    if results != [] {
      CountsPartition(results[..|results| - 1]);
    }
  }

  /** The conversion loop of `main`: one result per file, in order; `convert`
      is `convertAgent` with the destination directory fixed. */
  method ConvertAll(files: seq<(string, string)>, convert: (string, string) -> ConversionResult)
    returns (results: seq<ConversionResult>)
    ensures |results| == |files|
    ensures forall i :: 0 <= i < |files| ==> results[i] == convert(files[i].0, files[i].1)
  {
    results := [];
    for i := 0 to |files|
      invariant |results| == i
      invariant forall j :: 0 <= j < i ==> results[j] == convert(files[j].0, files[j].1)
    {
      results := results + [convert(files[i].0, files[i].1)];
    }
  }

  /** The summary of `main`: `successful` and `failed` add up to the number of files. */
  method Summary(results: seq<ConversionResult>) returns (successful: nat, failed: nat)
    ensures successful == CountSuccess(results) && failed == CountFailed(results)
    ensures successful + failed == |results|
  {
    successful := CountSuccess(results);
    failed := CountFailed(results);
    CountsPartition(results);
  }
}
