/**
 * `generateOpenCodeConfig` of the build script: the agent map of the loader
 * configuration, one entry per agent file whose header parses, keyed by the
 * file's base name.
 */
module BuildConfig {
  import opened Text
  import opened Yaml
  import Frontmatter

  /** One entry of the `agent` map. `mode` and `description` are the header's
      values or their defaults; the optional keys are present only when the
      header's value is truthy, and then carry it unchanged. */
  datatype AgentConfig = AgentConfig(
    mode: Value,
    description: Value,
    prompt: string,
    model: Option<Value>,
    tools: Option<Value>,
    color: Option<Value>)

  const PromptPrefix := "{file:./.opencode/agents/"

  /** `{file:./.opencode/agents/${file}}`. */
  function Prompt(file: string): (p: string)
    ensures |p| == |PromptPrefix| + |file| + 1
  {
    PromptPrefix + file + "}"
  }

  /** The prompt names the file: it is recovered from the prompt by dropping the
      fixed prefix and the closing brace. */
  lemma PromptNamesFile(file: string)
    ensures var p := Prompt(file);
      p[..|PromptPrefix|] == PromptPrefix && p[|p| - 1] == '}' &&
      p[|PromptPrefix|..|p| - 1] == file
  {
  }

  /** `basename(file, '.md')`: the last path segment without a ".md" suffix.
      The model keeps a segment that is exactly ".md", where Node returns ''
      for the file `.md`; the scan's `*.md` pattern skips dot files, so that
      file never reaches it. */
  function AgentKey(file: string): (key: string)
    ensures '/' !in key
  {
    var b := Basename(file);
    if |b| > 3 && b[|b| - 3..] == ".md" then b[..|b| - 3] else b
  }

  lemma AgentKeyOfFile(stem: string)
    requires stem != [] && '/' !in stem
    ensures AgentKey(stem + ".md") == stem
  {
    var f := stem + ".md";
    assert '/' !in f;
    SplitNoSep(f, '/');
    assert f[|f| - 3..] == ".md";
    assert f[..|f| - 3] == stem;
  }

  /** The key whose assignment `agents[k] = …` on the plain object literal
      goes to the inherited `__proto__` setter: it replaces the object's
      prototype and adds no own key, so neither `JSON.stringify` nor
      `Object.keys` sees it. */
  const ProtoKey := "__proto__"

  /** The file's assignment goes to the prototype setter. */
  predicate SetsPrototype(file: string) {
    AgentKey(file) == ProtoKey
  }

  /** `frontmatter[k] || d`. */
  function OrDefault(h: Header, k: string, d: string): Value {
    if Present(h, k) then h[k] else Str(d)
  }

  /** `...(frontmatter[k] && { [k]: frontmatter[k] })`. */
  function Optional(h: Header, k: string): Option<Value> {
    if Present(h, k) then Some(h[k]) else None
  }

  /** The entry built for `file` from the header fields `h`. */
  function Entry(file: string, h: Header): AgentConfig {
    AgentConfig(OrDefault(h, "mode", "subagent"), OrDefault(h, "description", ""), Prompt(file),
                Optional(h, "model"), Optional(h, "tools"), Optional(h, "color"))
  }

  /** The defaults and the optional keys of an entry. */
  lemma EntryFields(file: string, h: Header)
    ensures var e := Entry(file, h);
      (Present(h, "mode") ==> e.mode == h["mode"]) && (!Present(h, "mode") ==> e.mode == Str("subagent")) &&
      (Present(h, "description") ==> e.description == h["description"]) &&
      (!Present(h, "description") ==> e.description == Str("")) &&
      (e.model.Some? <==> Present(h, "model")) && (e.model.Some? ==> e.model.value == h["model"]) &&
      (e.tools.Some? <==> Present(h, "tools")) && (e.tools.Some? ==> e.tools.value == h["tools"]) &&
      (e.color.Some? <==> Present(h, "color")) && (e.color.Some? ==> e.color.value == h["color"]) &&
      Truthy(e.mode)
  {
  }

  /** What one agent file contributes: nothing when it has no `---` header, when
      the YAML library throws, or when the header is empty (`null`, whose
      property access throws and is caught too); otherwise the fields read from
      the parsed header (none for a scalar header, which the entry then fills
      with defaults). */
  function Fields(content: string, parse: string -> Parsed): Option<Header> {
    var parts := Frontmatter.SplitHeader(content);
    if parts.None? then None
    else
      var parsed := parse(parts.value.yaml);
      if parsed.ParseError? || parsed.doc.NullDoc? then None
      else Some(FieldsOf(parsed.doc))
  }

  /** The own entries of the agent map after the files `files` (pairs of name
      and content), in scan order: each accepted file sets its key, so a later
      file with the same key overwrites the earlier entry, except that the key
      `ProtoKey` never becomes an own entry. */
  function Config(files: seq<(string, string)>, parse: string -> Parsed): map<string, AgentConfig>
    decreases |files|
  {
    if files == [] then map[]
    else
      var before := Config(files[..|files| - 1], parse);
      var (file, content) := files[|files| - 1];
      var h := Fields(content, parse);
      if h.None? || SetsPrototype(file) then before
      else before[AgentKey(file) := Entry(file, h.value)]
  }

  /** `generateOpenCodeConfig`: the scan loop that fills `agents` entry by
      entry, skipping the files `Fields` rejects. */
  method GenerateConfig(files: seq<(string, string)>, parse: string -> Parsed) returns (agents: map<string, AgentConfig>)
    ensures agents == Config(files, parse)
  {
    agents := map[];
    for i := 0 to |files|
      invariant agents == Config(files[..i], parse)
    {
      ConfigSnoc(files[..i + 1], parse, files[..i], files[i]);
      var (file, content) := files[i];
      var parts := Frontmatter.SplitHeader(content);
      if parts.None? {
        continue;
      }
      var parsed := parse(parts.value.yaml);
      if parsed.ParseError? || parsed.doc.NullDoc? {
        continue;
      }
      var frontmatter := FieldsOf(parsed.doc);
      if !SetsPrototype(file) {
        agents := agents[AgentKey(file) := Entry(file, frontmatter)];
      }
    }
    assert files[..|files|] == files;
  }

  /** The file `f` is accepted and has the key `k`. */
  predicate KeyedBy(f: (string, string), parse: string -> Parsed, k: string) {
    Fields(f.1, parse).Some? && AgentKey(f.0) == k
  }

  /** Some accepted file among `files` has the key `k`. */
  predicate HasKey(files: seq<(string, string)>, parse: string -> Parsed, k: string) {
    exists i :: 0 <= i < |files| && KeyedBy(files[i], parse, k)
  }

  lemma ExistsSnoc<T>(xs: seq<T>, init: seq<T>, p: T -> bool)
    requires xs != [] && init == xs[..|xs| - 1]
    ensures (exists i :: 0 <= i < |xs| && p(xs[i])) <==>
            (exists i :: 0 <= i < |init| && p(init[i])) || p(xs[|xs| - 1])
  {
    if exists i :: 0 <= i < |xs| && p(xs[i]) {
      var i :| 0 <= i < |xs| && p(xs[i]);
      if i < |init| {
        assert init[i] == xs[i];
      }
    }
    if exists i :: 0 <= i < |init| && p(init[i]) {
      var i :| 0 <= i < |init| && p(init[i]);
      assert init[i] == xs[i];
    }
  }

  lemma HasKeySnoc(files: seq<(string, string)>, parse: string -> Parsed, k: string)
    requires files != []
    ensures HasKey(files, parse, k) <==>
      HasKey(files[..|files| - 1], parse, k) || KeyedBy(files[|files| - 1], parse, k)
  {
    var p := (f: (string, string)) => KeyedBy(f, parse, k);
    var init := files[..|files| - 1];
    ExistsSnoc(files, init, p);
    assert HasKey(files, parse, k) <==> exists i :: 0 <= i < |files| && p(files[i]);
    assert HasKey(init, parse, k) <==> exists i :: 0 <= i < |init| && p(init[i]);
  }

  /** The keys of the map are exactly the keys of the accepted files, except
      `ProtoKey`, which the map never holds. */
  lemma {:induction false} ConfigKeys(files: seq<(string, string)>, parse: string -> Parsed, k: string)
    ensures k in Config(files, parse) <==> k != ProtoKey && HasKey(files, parse, k)
    decreases |files|
  {
    if files != [] {
      ConfigKeys(files[..|files| - 1], parse, k);
      HasKeySnoc(files, parse, k);
    }
  }

  /** The last accepted file with a key decides that key's entry; a file
      keyed `ProtoKey` leaves no entry. */
  lemma {:induction false} LastFileWins(files: seq<(string, string)>, parse: string -> Parsed, i: nat)
    requires i < |files| && Fields(files[i].1, parse).Some?
    requires forall j :: i < j < |files| && Fields(files[j].1, parse).Some? ==> AgentKey(files[j].0) != AgentKey(files[i].0)
    ensures var k := AgentKey(files[i].0);
      (k == ProtoKey ==> k !in Config(files, parse)) &&
      (k != ProtoKey ==> k in Config(files, parse) &&
                         Config(files, parse)[k] == Entry(files[i].0, Fields(files[i].1, parse).value))
    decreases |files|
  {
    var init := files[..|files| - 1];
    var last := files[|files| - 1];
    var k := AgentKey(files[i].0);
    ConfigSnoc(files, parse, init, last);
    if k == ProtoKey {
      ConfigKeys(files, parse, k);
    } else if i < |files| - 1 {
      assert init[i] == files[i];
      forall j | i < j < |init| && Fields(init[j].1, parse).Some?
        ensures AgentKey(init[j].0) != AgentKey(init[i].0)
      {
        assert init[j] == files[j];
      }
      LastFileWins(init, parse, i);
      assert Fields(last.1, parse).Some? ==> AgentKey(last.0) != k;
    }
  }

  /** One step of the scan: the last file either is skipped or sets its key. */
  lemma ConfigSnoc(files: seq<(string, string)>, parse: string -> Parsed,
                   init: seq<(string, string)>, last: (string, string))
    requires files != [] && init == files[..|files| - 1] && last == files[|files| - 1]
    ensures var h := Fields(last.1, parse);
      Config(files, parse) == if h.None? || SetsPrototype(last.0) then Config(init, parse)
                              else Config(init, parse)[AgentKey(last.0) := Entry(last.0, h.value)]
  {
  }

  /** The file `__proto__.md` is keyed `ProtoKey`. */
  lemma ProtoFileName()
    ensures SetsPrototype("__proto__.md")
  {
    var f := ProtoKey + ".md";
    assert f == "__proto__.md";
    AgentKeyOfFile(ProtoKey);
    assert AgentKey(f) == ProtoKey;
  }

  /** A file keyed `ProtoKey` adds no entry and changes none, whatever its
      header, and the map never holds that key. */
  lemma ProtoFileDropped(files: seq<(string, string)>, parse: string -> Parsed, file: string, content: string)
    requires SetsPrototype(file)
    ensures Config(files + [(file, content)], parse) == Config(files, parse)
    ensures ProtoKey !in Config(files + [(file, content)], parse)
  {
    var all := files + [(file, content)];
    ConfigSnoc(all, parse, files, (file, content));
    ConfigKeys(files, parse, ProtoKey);
  }

  /** A file without a `---` header adds nothing and leaves every entry as it was. */
  lemma SkippedFile(files: seq<(string, string)>, parse: string -> Parsed, file: string, content: string)
    requires Frontmatter.SplitHeader(content).None? || parse(Frontmatter.SplitHeader(content).value.yaml).ParseError?
    ensures Config(files + [(file, content)], parse) == Config(files, parse)
  {
    assert (files + [(file, content)])[..|files|] == files;
  }
}
