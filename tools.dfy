/**
 * `parseTools` of the agent converter: a tool list (a string or an array of
 * strings) tokenized on runs of commas and whitespace, lower-cased, and run
 * through a `switch` that fills a fixed ten-flag record.
 */
module AgentTools {
  import opened Text
  import opened Yaml

  datatype Tool = Read | Glob | Grep | Bash | Write | Edit | Task | WebFetch | TodoWrite | TodoRead

  /** The fixed ten-key record; every key is always present. */
  datatype Tools = Tools(read: bool, glob: bool, grep: bool, bash: bool, write: bool,
                         edit: bool, task: bool, webfetch: bool, todowrite: bool, todoread: bool)
  {
    function Get(t: Tool): bool {
      match t
      case Read => read
      case Glob => glob
      case Grep => grep
      case Bash => bash
      case Write => write
      case Edit => edit
      case Task => task
      case WebFetch => webfetch
      case TodoWrite => todowrite
      case TodoRead => todoread
    }

    /** `Object.values(tools).some(v => v)`. */
    predicate AnyEnabled() {
      read || glob || grep || bash || write || edit || task || webfetch || todowrite || todoread
    }
  }

  const AllFalse := Tools(false, false, false, false, false, false, false, false, false, false)

  lemma ToolsExt(a: Tools, b: Tools)
    requires forall t :: a.Get(t) == b.Get(t)
    ensures a == b
  {
    assert b == Tools(a.Get(Read), a.Get(Glob), a.Get(Grep), a.Get(Bash), a.Get(Write),
                      a.Get(Edit), a.Get(Task), a.Get(WebFetch), a.Get(TodoWrite), a.Get(TodoRead));
  }

  // ---------------------------------------------------------------------------
  // The switch

  /** The `case` groups of the `switch`: the two fallthrough pairs are one group each. */
  datatype Keyword = KRead | KGlob | KGrep | KBash | KWrite | KEdit | KTask | KWeb | KTodo | KUnknown

  /** Which `case` group a lower-cased token reaches. */
  function Classify(tok: string): Keyword {
    if tok == "read" then KRead
    else if tok == "glob" then KGlob
    else if tok == "grep" then KGrep
    else if tok == "bash" then KBash
    else if tok == "write" then KWrite
    else if tok == "edit" then KEdit
    else if tok == "task" then KTask
    else if tok == "webfetch" || tok == "web" then KWeb
    else if tok == "todo" || tok == "todowrite" then KTodo
    else KUnknown
  }

  /** The flags a `case` group sets. */
  predicate Sets(k: Keyword, t: Tool) {
    match k
    case KRead => t == Read
    case KGlob => t == Glob
    case KGrep => t == Grep
    case KBash => t == Bash
    case KWrite => t == Write
    case KEdit => t == Edit
    case KTask => t == Task
    case KWeb => t == WebFetch
    case KTodo => t == TodoWrite || t == TodoRead
    case KUnknown => false
  }

  /** Token `tok` switches flag `t` on. */
  predicate Names(t: Tool, tok: string) { Sets(Classify(tok), t) }

  predicate Recognised(tok: string) { Classify(tok) != KUnknown }

  /** The synonyms: `web` and `webfetch` reach the same group, which sets
      `webfetch` alone; `todo` and `todowrite` reach the group that sets both todo
      flags; `todoread` is no `case` at all. */
  lemma Synonyms()
    ensures Classify("web") == Classify("webfetch") == KWeb
    ensures forall t :: Sets(KWeb, t) <==> t == WebFetch
    ensures Classify("todo") == Classify("todowrite") == KTodo
    ensures forall t :: Sets(KTodo, t) <==> t == TodoWrite || t == TodoRead
    ensures Classify("todoread") == KUnknown
  {
  }

  lemma RecognisedIffNames(tok: string)
    ensures Recognised(tok) <==> exists t :: Names(t, tok)
  {
    match Classify(tok)
    case KRead => assert Names(Read, tok);
    case KGlob => assert Names(Glob, tok);
    case KGrep => assert Names(Grep, tok);
    case KBash => assert Names(Bash, tok);
    case KWrite => assert Names(Write, tok);
    case KEdit => assert Names(Edit, tok);
    case KTask => assert Names(Task, tok);
    case KWeb => assert Names(WebFetch, tok);
    case KTodo => assert Names(TodoWrite, tok);
    case KUnknown =>
  }

  /** One pass of the `switch`: the flags of the token's group are set, every other flag is kept. */
  function Enable(flags: Tools, k: Keyword): Tools {
    Tools(flags.read || Sets(k, Read), flags.glob || Sets(k, Glob), flags.grep || Sets(k, Grep),
          flags.bash || Sets(k, Bash), flags.write || Sets(k, Write), flags.edit || Sets(k, Edit),
          flags.task || Sets(k, Task), flags.webfetch || Sets(k, WebFetch),
          flags.todowrite || Sets(k, TodoWrite), flags.todoread || Sets(k, TodoRead))
  }

  lemma EnableGet(flags: Tools, k: Keyword, t: Tool)
    ensures Enable(flags, k).Get(t) == (flags.Get(t) || Sets(k, t))
  {
  }

  /** `web` sets `webfetch` and nothing else. */
  lemma WebSetsOnlyWebfetch(flags: Tools)
    ensures Enable(flags, Classify("web")) == flags.(webfetch := true)
  {
    assert Classify("web") == KWeb;
  }

  /** `todo` sets both `todowrite` and `todoread`. */
  lemma TodoSetsBothTodoFlags(flags: Tools)
    ensures Enable(flags, Classify("todo")) == flags.(todowrite := true, todoread := true)
  {
    TodoIsTodo();
    assert Enable(flags, KTodo) == flags.(todowrite := true, todoread := true);
  }

  lemma TodoIsTodo()
    ensures Classify("todo") == KTodo
  {
    var t := "todo";
    assert t[0] == 't' && t[1] == 'o';
  }

  /** `todoread` on its own sets nothing. */
  lemma TodoreadSetsNothing(flags: Tools)
    ensures Enable(flags, Classify("todoread")) == flags
  {
    assert Classify("todoread") == KUnknown;
  }

  /** The flags after the loop has run the `switch` over `ks`, in order. */
  function EnableAll(flags: Tools, ks: seq<Keyword>): Tools
    decreases |ks|
  {
    if ks == [] then flags else Enable(EnableAll(flags, ks[..|ks| - 1]), ks[|ks| - 1])
  }

  /** Some keyword of `ks` sets flag `t`. */
  predicate EnabledBy(ks: seq<Keyword>, t: Tool) {
    exists i :: 0 <= i < |ks| && Sets(ks[i], t)
  }

  predicate AnyKnown(ks: seq<Keyword>) {
    exists i :: 0 <= i < |ks| && ks[i] != KUnknown
  }

  /** After the loop a flag is on exactly when it was on before or some token sets it. */
  lemma {:induction false} EnableAllFlags(flags: Tools, ks: seq<Keyword>, t: Tool)
    ensures EnableAll(flags, ks).Get(t) <==> flags.Get(t) || EnabledBy(ks, t)
    decreases |ks|
  {
    if ks != [] {
      var init, last := ks[..|ks| - 1], ks[|ks| - 1];
      EnableAllFlags(flags, init, t);
      EnableGet(EnableAll(flags, init), last, t);
      EnabledBySnoc(ks, t);
    }
  }

  lemma EnabledBySnoc(ks: seq<Keyword>, t: Tool)
    requires ks != []
    ensures EnabledBy(ks, t) <==> EnabledBy(ks[..|ks| - 1], t) || Sets(ks[|ks| - 1], t)
  {
    var init := ks[..|ks| - 1];
    if EnabledBy(init, t) {
      var i :| 0 <= i < |init| && Sets(init[i], t);
      assert Sets(ks[i], t);
    }
    if EnabledBy(ks, t) && !Sets(ks[|ks| - 1], t) {
      var i :| 0 <= i < |ks| && Sets(ks[i], t);
      assert i < |init| && Sets(init[i], t);
    }
  }

  /** "Absent iff all false": the record has a true flag exactly when some token is known. */
  lemma AnyEnabledIffKnown(ks: seq<Keyword>)
    ensures EnableAll(AllFalse, ks).AnyEnabled() <==> AnyKnown(ks)
  {
    var f := EnableAll(AllFalse, ks);
    if f.AnyEnabled() {
      var t := SomeEnabled(f);
      EnableAllFlags(AllFalse, ks, t);
      var i :| 0 <= i < |ks| && Sets(ks[i], t);
    }
    if AnyKnown(ks) {
      var i :| 0 <= i < |ks| && ks[i] != KUnknown;
      var t := SomeSet(ks[i]);
      EnableAllFlags(AllFalse, ks, t);
      EnabledAny(f, t);
    }
  }

  /** A flag that is on. */
  function SomeEnabled(f: Tools): (t: Tool)
    requires f.AnyEnabled()
    ensures f.Get(t)
  {
    if f.read then Read else if f.glob then Glob else if f.grep then Grep
    else if f.bash then Bash else if f.write then Write else if f.edit then Edit
    else if f.task then Task else if f.webfetch then WebFetch
    else if f.todowrite then TodoWrite else TodoRead
  }

  /** A flag that a known keyword sets. */
  function SomeSet(k: Keyword): (t: Tool)
    requires k != KUnknown
    ensures Sets(k, t)
  {
    match k
    case KRead => Read
    case KGlob => Glob
    case KGrep => Grep
    case KBash => Bash
    case KWrite => Write
    case KEdit => Edit
    case KTask => Task
    case KWeb => WebFetch
    case KTodo => TodoWrite
  }

  lemma EnabledAny(f: Tools, t: Tool)
    requires f.Get(t)
    ensures f.AnyEnabled()
  {
  }

  /** The `case` group of each token. */
  function Keywords(toks: seq<string>): (r: seq<Keyword>)
    ensures |r| == |toks|
    ensures forall i :: 0 <= i < |toks| ==> r[i] == Classify(toks[i])
  {
    seq(|toks|, i requires 0 <= i < |toks| => Classify(toks[i]))
  }

  /** Some token of `toks` names flag `t`. */
  predicate Mentions(toks: seq<string>, t: Tool) {
    exists i :: 0 <= i < |toks| && Names(t, toks[i])
  }

  predicate AnyRecognised(toks: seq<string>) {
    exists i :: 0 <= i < |toks| && Recognised(toks[i])
  }

  lemma KeywordsMention(toks: seq<string>, t: Tool)
    ensures EnabledBy(Keywords(toks), t) <==> Mentions(toks, t)
    ensures AnyKnown(Keywords(toks)) <==> AnyRecognised(toks)
  {
    var ks := Keywords(toks);
    if EnabledBy(ks, t) {
      var i :| 0 <= i < |ks| && Sets(ks[i], t);
      assert Names(t, toks[i]);
    }
    if Mentions(toks, t) {
      var i :| 0 <= i < |toks| && Names(t, toks[i]);
      assert Sets(ks[i], t);
    }
    if AnyKnown(ks) {
      var i :| 0 <= i < |ks| && ks[i] != KUnknown;
      assert Recognised(toks[i]);
    }
    if AnyRecognised(toks) {
      var i :| 0 <= i < |toks| && Recognised(toks[i]);
      assert ks[i] != KUnknown;
    }
  }

  // ---------------------------------------------------------------------------
  // Tokenizer: `split(/[,\s]+/)`, `trim()`, `toLowerCase()`, drop empty pieces.
  // The pieces of the split are the maximal runs of non-separator characters
  // (plus empty pieces at the ends, which the filter drops); trimming them is
  // the identity since they hold no whitespace.

  predicate IsToolSep(c: char) { c == ',' || IsSpace(c) }

  /** Length of the run of non-separators at the start of `s`. */
  function WordLen(s: string): (n: nat)
    ensures n <= |s|
    ensures forall i :: 0 <= i < n ==> !IsToolSep(s[i])
    ensures n < |s| ==> IsToolSep(s[n])
    decreases |s|
  {
    if s == [] || IsToolSep(s[0]) then 0 else 1 + WordLen(s[1..])
  }

  function Tokens(s: string): (r: seq<string>)
    ensures forall k :: 0 <= k < |r| ==> |r[k]| > 0
    decreases |s|
  {
    if s == [] then []
    else if IsToolSep(s[0]) then Tokens(s[1..])
    else
      var n := WordLen(s);
      [Lower(s[..n])] + Tokens(s[n..])
  }

  function TokensOf(v: Value): seq<string> {
    Tokens(ToText(v))
  }

  lemma {:induction false} WordLenPrefix(a: string, b: string)
    requires WordLen(a) < |a|
    ensures WordLen(a + b) == WordLen(a)
    decreases |a|
  {
    if !IsToolSep(a[0]) {
      assert (a + b)[1..] == a[1..] + b;
      WordLenPrefix(a[1..], b);
    }
  }

  /** A separator splits the token list: the tokens of `a + [c] + b` are those of `a` then those of `b`. */
  lemma {:induction false} TokensAtSeparator(a: string, c: char, b: string)
    requires IsToolSep(c)
    ensures Tokens(a + [c] + b) == Tokens(a) + Tokens(b)
    decreases |a|, 1
  {
    var s := a + [c] + b;
    if a == [] {
      assert s[1..] == b;
    } else if IsToolSep(a[0]) {
      assert s[1..] == a[1..] + [c] + b;
      TokensAtSeparator(a[1..], c, b);
    } else {
      TokensAtSeparatorWord(a, c, b);
    }
  }

  /** The case of `TokensAtSeparator` where `a` starts with a word. */
  lemma {:induction false} TokensAtSeparatorWord(a: string, c: char, b: string)
    requires IsToolSep(c) && a != [] && !IsToolSep(a[0])
    ensures Tokens(a + [c] + b) == Tokens(a) + Tokens(b)
    decreases |a|, 0
  {
    var n := WordLen(a);
    var word, rest := a[..n], a[n..];
    FirstWordAtSeparator(a, c, b);
    TokensAtSeparator(rest, c, b);
    assert Tokens(a) == [Lower(word)] + Tokens(rest);
    assert [Lower(word)] + (Tokens(rest) + Tokens(b)) == ([Lower(word)] + Tokens(rest)) + Tokens(b);
  }

  /** The first token of `a + [c] + b` is the first word of `a`. */
  lemma FirstWordAtSeparator(a: string, c: char, b: string)
    requires IsToolSep(c) && a != [] && !IsToolSep(a[0])
    ensures var n := WordLen(a);
      Tokens(a + [c] + b) == [Lower(a[..n])] + Tokens(a[n..] + [c] + b)
  {
    var s := a + [c] + b;
    var n := WordLen(a);
    WordLenAtSeparator(a, c, b);
    CutInside(a, c, b, n);
    assert s[0] == a[0];
  }

  /** Cutting `a + [c] + b` at a point inside `a`. */
  lemma CutInside(a: string, c: char, b: string, n: nat)
    requires n <= |a|
    ensures var s := a + [c] + b; s[..n] == a[..n] && s[n..] == a[n..] + [c] + b
  {
    var s := a + [c] + b;
    assert s == a + ([c] + b);
    assert s[n..] == a[n..] + ([c] + b);
  }

  /** A separator after `a` ends its first word no later than `a` does. */
  lemma WordLenAtSeparator(a: string, c: char, b: string)
    requires IsToolSep(c)
    ensures WordLen(a + [c] + b) == WordLen(a)
  {
    if WordLen(a) == |a| {
      assert WordLen(a + [c]) == |a| by { WordLenAll(a, [c]); }
      WordLenPrefix(a + [c], b);
      assert a + [c] + b == (a + [c]) + b;
    } else {
      WordLenPrefix(a, [c] + b);
      assert a + [c] + b == a + ([c] + b);
    }
  }

  lemma {:induction false} WordLenAll(a: string, sep: string)
    requires WordLen(a) == |a| && |sep| == 1 && IsToolSep(sep[0])
    ensures WordLen(a + sep) == |a|
    decreases |a|
  {
    if a == [] {
    } else {
      assert (a + sep)[1..] == a[1..] + sep;
      WordLenAll(a[1..], sep);
    }
  }

  function Flatten(xs: seq<seq<string>>): seq<string>
    decreases |xs|
  {
    if xs == [] then [] else xs[0] + Flatten(xs[1..])
  }

  function TokensEach(items: seq<string>): (r: seq<seq<string>>)
    ensures |r| == |items|
    decreases |items|
  {
    if items == [] then [] else [Tokens(items[0])] + TokensEach(items[1..])
  }

  /** A tool array yields the tokens of its items, in order: joining with ',' adds no token and merges none. */
  lemma {:induction false} TokensOfJoin(items: seq<string>)
    ensures Tokens(Join(items, ",")) == Flatten(TokensEach(items))
    decreases |items|
  {
    if |items| == 0 {
    } else if |items| == 1 {
      assert Flatten(TokensEach(items)) == Tokens(items[0]) + Flatten([]);
    } else {
      TokensOfJoin(items[1..]);
      TokensAtSeparator(items[0], ',', Join(items[1..], ","));
      assert Join(items, ",") == items[0] + [','] + Join(items[1..], ",");
    }
  }

  lemma {:induction false} TokensLower(s: string)
    ensures Tokens(Lower(s)) == Tokens(s)
    decreases |s|
  {
    var l := Lower(s);
    if s != [] {
      assert l[1..] == Lower(s[1..]);
      if IsToolSep(s[0]) {
        TokensLower(s[1..]);
      } else {
        var n := WordLen(s);
        WordLenLower(s);
        assert l[..n] == Lower(s[..n]);
        LowerIdempotent(s[..n]);
        assert l[n..] == Lower(s[n..]);
        TokensLower(s[n..]);
      }
    }
  }

  lemma {:induction false} WordLenLower(s: string)
    ensures WordLen(Lower(s)) == WordLen(s)
    decreases |s|
  {
    if s != [] {
      assert Lower(s)[1..] == Lower(s[1..]);
      WordLenLower(s[1..]);
    }
  }

  lemma AllSpaceNoTokens(s: string)
    requires AllSpace(s)
    ensures Tokens(s) == []
    decreases |s|
  {
    if s != [] {
      assert AllSpace(s[1..]);
      AllSpaceNoTokens(s[1..]);
    }
  }

  // ---------------------------------------------------------------------------
  lemma SingleToken(w: string)
    requires |w| > 0 && forall i :: 0 <= i < |w| ==> !IsToolSep(w[i])
    ensures Tokens(w) == [Lower(w)]
  {
    WordLenNoSep(w);
    assert w[..|w|] == w && w[|w|..] == [];
  }

  lemma {:induction false} WordLenNoSep(w: string)
    requires forall i :: 0 <= i < |w| ==> !IsToolSep(w[i])
    ensures WordLen(w) == |w|
    decreases |w|
  {
    if w != [] { WordLenNoSep(w[1..]); }
  }

  /** Leading separators add no token. */
  lemma {:induction false} TokensAfterSeparators(sep: string, b: string)
    requires forall i :: 0 <= i < |sep| ==> IsToolSep(sep[i])
    ensures Tokens(sep + b) == Tokens(b)
    decreases |sep|
  {
    if sep == [] {
      assert sep + b == b;
    } else {
      assert (sep + b)[0] == sep[0] && IsToolSep(sep[0]);
      assert (sep + b)[1..] == sep[1..] + b;
      TokensAfterSeparators(sep[1..], b);
    }
  }

  /** Two words split by any non-empty run of commas and whitespace give two lower-cased tokens. */
  lemma TwoWords(a: string, sep: string, b: string)
    requires |a| > 0 && forall i :: 0 <= i < |a| ==> !IsToolSep(a[i])
    requires |b| > 0 && forall i :: 0 <= i < |b| ==> !IsToolSep(b[i])
    requires |sep| > 0 && forall i :: 0 <= i < |sep| ==> IsToolSep(sep[i])
    ensures Tokens(a + sep + b) == [Lower(a), Lower(b)]
  {
    SeparatedTokens(a, sep, b);
    SingleToken(a);
    SingleToken(b);
  }

  /** A non-empty run of separators between two texts splits their tokens. */
  lemma SeparatedTokens(a: string, sep: string, b: string)
    requires |sep| > 0 && forall i :: 0 <= i < |sep| ==> IsToolSep(sep[i])
    ensures Tokens(a + sep + b) == Tokens(a) + Tokens(b)
  {
    var more := sep[1..];
    var rest := more + b;
    assert a + sep + b == a + [sep[0]] + rest;
    TokensAtSeparator(a, sep[0], rest);
    forall i | 0 <= i < |more| ensures IsToolSep(more[i]) {
      assert more[i] == sep[i + 1];
    }
    TokensAfterSeparators(more, b);
  }

  lemma TokensNotBlank(s: string)
    requires Tokens(s) != []
    ensures Trim(s) != []
  {
    if Trim(s) == [] {
      TrimEmptyIffAllSpace(s);
      AllSpaceNoTokens(s);
    }
  }

  // ---------------------------------------------------------------------------
  // parseTools

  /** `parseTools(toolInput)`: an array is read through its comma-joined text. */
  function ParseToolsOf(input: Option<Value>): (r: Option<Tools>)
    ensures r.Some? ==> r.value.AnyEnabled()
  {
    if input.None? || !Truthy(input.value) then None
    else if input.value.List? && |input.value.items| == 0 then None
    else
      var s := ToText(input.value);
      if Trim(s) == [] then None
      else
        var flags := EnableAll(AllFalse, Keywords(Tokens(s)));
        if flags.AnyEnabled() then Some(flags) else None
  }

  /** Absent input, an empty array, a blank string or a list naming no known tool
      give no record; otherwise the ten flags, each on exactly when some token
      names it. */
  lemma ParseToolsCharacterised(input: Option<Value>)
    ensures input.None? || !Truthy(input.value) ==> ParseToolsOf(input).None?
    ensures input.Some? && input.value.List? && |input.value.items| == 0 ==> ParseToolsOf(input).None?
    ensures ParseToolsOf(input).Some? ==>
      forall t :: ParseToolsOf(input).value.Get(t) <==> Mentions(TokensOf(input.value), t)
    ensures input.Some? && Truthy(input.value) && !(input.value.List? && |input.value.items| == 0) ==>
      (ParseToolsOf(input).Some? <==> AnyRecognised(TokensOf(input.value)))
  {
    if input.Some? && Truthy(input.value) && !(input.value.List? && |input.value.items| == 0) {
      var s := ToText(input.value);
      var toks := Tokens(s);
      if Trim(s) == [] {
        TrimEmptyIffAllSpace(s);
        AllSpaceNoTokens(s);
      } else {
        var ks := Keywords(toks);
        AnyEnabledIffKnown(ks);
        forall t ensures EnableAll(AllFalse, ks).Get(t) <==> Mentions(toks, t) {
          EnableAllFlags(AllFalse, ks, t);
          KeywordsMention(toks, t);
        }
        KeywordsMention(toks, Read);
      }
    }
  }

  /** The imperative `parseTools`: the `for`/`switch` loop filling the flag record. */
  method ParseTools(input: Option<Value>) returns (r: Option<Tools>)
    ensures r == ParseToolsOf(input)
  {
    if input.None? || !Truthy(input.value) {
      return None;
    }
    if input.value.List? && |input.value.items| == 0 {
      return None;
    }
    var text := ToText(input.value);
    if Trim(text) == [] {
      return None;
    }
    var tools := EnableTokens(Tokens(text));
    r := if tools.AnyEnabled() then Some(tools) else None;
  }

  /** The loop of `parseTools`: each token switches on the flags it names. */
  method EnableTokens(toolList: seq<string>) returns (tools: Tools)
    ensures tools == EnableAll(AllFalse, Keywords(toolList))
  {
    tools := AllFalse;
    ghost var ks := Keywords(toolList);
    var i := 0;
    while i < |toolList|
      invariant 0 <= i <= |toolList|
      invariant tools == EnableAll(AllFalse, ks[..i])
    {
      var k := Classify(toolList[i]);
      EnableAllStep(ks, i);
      tools := Enable(tools, k);
      i := i + 1;
    }
    assert ks[..i] == ks;
  }

  lemma EnableAllStep(ks: seq<Keyword>, i: nat)
    requires i < |ks|
    ensures EnableAll(AllFalse, ks[..i + 1]) == Enable(EnableAll(AllFalse, ks[..i]), ks[i])
  {
    assert ks[..i + 1][..i] == ks[..i];
  }

  /** Repetition and order do not matter: two strings whose token lists hold the
      same known tokens give the same result. */
  lemma SameRecognisedTokensSameTools(a: string, b: string)
    requires forall tok :: Recognised(tok) ==> (tok in Tokens(a) <==> tok in Tokens(b))
    ensures ParseToolsOf(Some(Str(a))) == ParseToolsOf(Some(Str(b)))
  {
    var ta, tb := Tokens(a), Tokens(b);
    SameRecognisedMentions(ta, tb);
    ParseToolsCharacterised(Some(Str(a)));
    ParseToolsCharacterised(Some(Str(b)));
    var ra, rb := ParseToolsOf(Some(Str(a))), ParseToolsOf(Some(Str(b)));
    if ra.Some? && rb.Some? {
      ToolsExt(ra.value, rb.value);
    }
  }

  /** Token lists holding the same known tokens mention the same flags. */
  lemma SameRecognisedMentions(ta: seq<string>, tb: seq<string>)
    requires forall tok :: Recognised(tok) ==> (tok in ta <==> tok in tb)
    ensures forall t :: Mentions(ta, t) <==> Mentions(tb, t)
    ensures AnyRecognised(ta) <==> AnyRecognised(tb)
  {
    forall t ensures Mentions(ta, t) <==> Mentions(tb, t) {
      if Mentions(ta, t) {
        var k :| 0 <= k < |ta| && Names(t, ta[k]);
        assert ta[k] in tb;
        var j :| 0 <= j < |tb| && tb[j] == ta[k];
      }
      if Mentions(tb, t) {
        var k :| 0 <= k < |tb| && Names(t, tb[k]);
        assert tb[k] in ta;
        var j :| 0 <= j < |ta| && ta[j] == tb[k];
      }
    }
    if AnyRecognised(ta) {
      var k :| 0 <= k < |ta| && Recognised(ta[k]);
      assert ta[k] in tb;
    }
    if AnyRecognised(tb) {
      var k :| 0 <= k < |tb| && Recognised(tb[k]);
      assert tb[k] in ta;
    }
  }

  lemma AllSpaceLower(s: string)
    ensures AllSpace(Lower(s)) <==> AllSpace(s)
  {
    if AllSpace(s) {
      forall i | 0 <= i < |s| ensures IsSpace(Lower(s)[i]) {
        assert !IsUpper(s[i]);
      }
    }
    if AllSpace(Lower(s)) {
      forall i | 0 <= i < |s| ensures IsSpace(s[i]) {
        assert IsSpace(Lower(s)[i]);
      }
    }
  }

  /** Letter case does not matter: tokens are lower-cased before the `switch`. */
  lemma ParseToolsIgnoresCase(s: string)
    ensures ParseToolsOf(Some(Str(Lower(s)))) == ParseToolsOf(Some(Str(s)))
  {
    TokensLower(s);
    AllSpaceLower(s);
    TrimEmptyIffAllSpace(s);
    TrimEmptyIffAllSpace(Lower(s));
  }

  /** An array gives the result of its comma-joined string, and its token list is
      the concatenation of its items' token lists. */
  lemma ParseToolsArray(items: seq<string>)
    requires |items| > 0
    ensures ParseToolsOf(Some(List(items))) == ParseToolsOf(Some(Str(Join(items, ","))))
    ensures TokensOf(List(items)) == Flatten(TokensEach(items))
  {
    TokensOfJoin(items);
  }

  /** A one-word tool string yields the flags of that word's `case` alone. */
  lemma ParseSingleWord(w: string)
    requires |w| > 0 && forall i :: 0 <= i < |w| ==> !IsToolSep(w[i])
    ensures ParseToolsOf(Some(Str(w))) ==
      if Enable(AllFalse, Classify(Lower(w))).AnyEnabled() then Some(Enable(AllFalse, Classify(Lower(w)))) else None
  {
    SingleToken(w);
    TokensNotBlank(w);
    KeywordsOne(Lower(w));
    EnableAllOne(Classify(Lower(w)));
  }

  lemma KeywordsOne(tok: string)
    ensures Keywords([tok]) == [Classify(tok)]
  {
  }

  lemma EnableAllOne(k: Keyword)
    ensures EnableAll(AllFalse, [k]) == Enable(AllFalse, k)
  {
    assert [k][..0] == [];
  }

  lemma WebClass(tok: string)
    requires tok == "web" || tok == "webfetch"
    ensures Classify(tok) == KWeb
  {
  }

  lemma TodoClass(tok: string)
    requires tok == "todo" || tok == "todowrite"
    ensures Classify(tok) == KTodo
  {
  }

  lemma TodoreadClass(tok: string)
    requires tok == "todoread"
    ensures Classify(tok) == KUnknown
  {
  }

  lemma EnableWeb()
    ensures Enable(AllFalse, KWeb) == AllFalse.(webfetch := true)
  {
  }

  lemma EnableTodo()
    ensures Enable(AllFalse, KTodo) == AllFalse.(todowrite := true, todoread := true)
  {
  }

  lemma EnableUnknown()
    ensures !Enable(AllFalse, KUnknown).AnyEnabled()
  {
  }

  /** A tool list that is the single word `web` or `webfetch`, in any case,
      gives the record with `webfetch` alone on. */
  lemma WebWordSetsOnlyWebfetch(w: string)
    requires |w| > 0 && forall i :: 0 <= i < |w| ==> !IsToolSep(w[i])
    requires Lower(w) == "web" || Lower(w) == "webfetch"
    ensures ParseToolsOf(Some(Str(w))) == Some(AllFalse.(webfetch := true))
  {
    ParseSingleWord(w);
    WebClass(Lower(w));
    EnableWeb();
  }

  /** The single word `todo` or `todowrite` gives the record with both todo flags on. */
  lemma TodoWordSetsBoth(w: string)
    requires |w| > 0 && forall i :: 0 <= i < |w| ==> !IsToolSep(w[i])
    requires Lower(w) == "todo" || Lower(w) == "todowrite"
    ensures ParseToolsOf(Some(Str(w))) == Some(AllFalse.(todowrite := true, todoread := true))
  {
    ParseSingleWord(w);
    TodoClass(Lower(w));
    EnableTodo();
  }

  /** The single word `todoread` is unrecognised: no record. */
  lemma TodoreadWordUnknown(w: string)
    requires |w| > 0 && forall i :: 0 <= i < |w| ==> !IsToolSep(w[i])
    requires Lower(w) == "todoread"
    ensures ParseToolsOf(Some(Str(w))).None?
  {
    ParseSingleWord(w);
    TodoreadClass(Lower(w));
    EnableUnknown();
  }

  /** Separators and letter case do not matter: "Read, BASH" and "read bash" are
      two words each, equal up to case, so they give the same record. */
  lemma SeparatorsAndCase(a: string, s1: string, b: string, c: string, s2: string, d: string)
    requires |a| > 0 && forall i :: 0 <= i < |a| ==> !IsToolSep(a[i])
    requires |b| > 0 && forall i :: 0 <= i < |b| ==> !IsToolSep(b[i])
    requires |c| > 0 && forall i :: 0 <= i < |c| ==> !IsToolSep(c[i])
    requires |d| > 0 && forall i :: 0 <= i < |d| ==> !IsToolSep(d[i])
    requires |s1| > 0 && forall i :: 0 <= i < |s1| ==> IsToolSep(s1[i])
    requires |s2| > 0 && forall i :: 0 <= i < |s2| ==> IsToolSep(s2[i])
    requires Lower(a) == Lower(c) && Lower(b) == Lower(d)
    ensures ParseToolsOf(Some(Str(a + s1 + b))) == ParseToolsOf(Some(Str(c + s2 + d)))
  {
    TwoWords(a, s1, b);
    TwoWords(c, s2, d);
    TokensNotBlank(a + s1 + b);
    TokensNotBlank(c + s2 + d);
  }
}
