/**
 * What the two documentation generators share: keyword categorisation over
 * an ordered rule list, the position table lookup, slug titles and the two
 * escapes applied to generated pages.
 */
module DocsCommon {
  import opened Text

  // ---------------------------------------------------------------------------
  // Categorisation

  /** One alternative of a category regex: a literal word, or the agent
      generator's `machine.?learning`. */
  datatype Pattern = Lit(word: string) | MachineLearning

  /** A category rule: its alternatives, in order, and the category it assigns. */
  datatype Rule = Rule(patterns: seq<Pattern>, category: string)

  /** `machine`, at most one character that is not a line terminator, then
      `learning`, starting at index `i`. */
  predicate MachineLearningAt(t: string, i: nat) {
    && i + 7 <= |t| && t[i..i + 7] == "machine"
    && ((i + 15 <= |t| && t[i + 7..i + 15] == "learning") ||
        (i + 16 <= |t| && !IsLineTerminator(t[i + 7]) && t[i + 8..i + 16] == "learning"))
  }

  /** The alternative matches somewhere in the (already lower-cased) text; the
      rules' words are lower-case ASCII, so the regexes' `i` flag adds nothing. */
  predicate Matches(p: Pattern, t: string) {
    match p
    case Lit(w) => Contains(t, w)
    case MachineLearning => exists i :: 0 <= i <= |t| && MachineLearningAt(t, i)
  }

  /** `rule.pattern.test(text)`. */
  predicate RuleMatches(r: Rule, t: string) {
    exists k :: 0 <= k < |r.patterns| && Matches(r.patterns[k], t)
  }

  /** Index of the first rule, from `from` on, that matches. */
  function FirstMatch(rules: seq<Rule>, t: string, from: nat): (r: Option<nat>)
    requires from <= |rules|
    ensures r.Some? ==> from <= r.value < |rules| && RuleMatches(rules[r.value], t)
    ensures r.Some? ==> forall j :: from <= j < r.value ==> !RuleMatches(rules[j], t)
    ensures r.None? ==> forall j :: from <= j < |rules| ==> !RuleMatches(rules[j], t)
    decreases |rules| - from
  {
    if from == |rules| then None
    else if RuleMatches(rules[from], t) then Some(from)
    else FirstMatch(rules, t, from + 1)
  }

  /** The category the first matching rule assigns, or `other`. */
  function Categorize(rules: seq<Rule>, t: string): string {
    match FirstMatch(rules, t, 0)
    case Some(i) => rules[i].category
    case None => "other"
  }

  /** `categorizeSkill` / `categorizeAgent` on the combined text: the rules are
      tried in declaration order and the first that matches decides. */
  method CategorizeText(rules: seq<Rule>, t: string) returns (category: string)
    ensures category == Categorize(rules, t)
    ensures (exists i :: 0 <= i < |rules| && RuleMatches(rules[i], t) &&
                         (forall j :: 0 <= j < i ==> !RuleMatches(rules[j], t)) &&
                         category == rules[i].category) ||
            ((forall j :: 0 <= j < |rules| ==> !RuleMatches(rules[j], t)) && category == "other")
  {
    for i := 0 to |rules|
      invariant forall j :: 0 <= j < i ==> !RuleMatches(rules[j], t)
      invariant FirstMatch(rules, t, 0) == FirstMatch(rules, t, i)
    {
      if RuleMatches(rules[i], t) {
        return rules[i].category;
      }
    }
    return "other";
  }

  /** The category is the label of some rule, or `other`. */
  lemma CategorizeLabel(rules: seq<Rule>, t: string)
    ensures Categorize(rules, t) == "other" ||
            exists i :: 0 <= i < |rules| && Categorize(rules, t) == rules[i].category
  {
  }

  /** A rule that matches decides the category unless an earlier rule matches
      too: declaration order wins. */
  lemma EarlierRuleWins(rules: seq<Rule>, t: string, i: nat)
    requires i < |rules| && RuleMatches(rules[i], t)
    requires forall j :: 0 <= j < i ==> !RuleMatches(rules[j], t)
    ensures Categorize(rules, t) == rules[i].category
  {
    FirstMatchIs(rules, t, 0, i);
  }

  lemma {:induction false} FirstMatchIs(rules: seq<Rule>, t: string, from: nat, i: nat)
    requires from <= i < |rules| && RuleMatches(rules[i], t)
    requires forall j :: from <= j < i ==> !RuleMatches(rules[j], t)
    ensures FirstMatch(rules, t, from) == Some(i)
    decreases i - from
  {
    if from < i {
      FirstMatchIs(rules, t, from + 1, i);
    }
  }

  /** A word that occurs in the text makes its rule match. */
  lemma WordMatches(r: Rule, k: nat, t: string, i: nat)
    requires k < |r.patterns| && r.patterns[k].Lit?
    requires i + |r.patterns[k].word| <= |t| && t[i..i + |r.patterns[k].word|] == r.patterns[k].word
    ensures RuleMatches(r, t)
  {
    assert r.patterns[k].word <= t[i..];
  }

  /** `machine.?learning` matches the three spellings `machinelearning`,
      `machine learning` and `machine-learning` wherever they occur. */
  lemma MachineLearningSpellings(a: string, c: char, b: string)
    requires !IsLineTerminator(c)
    ensures Matches(MachineLearning, a + "machine" + "learning" + b)
    ensures Matches(MachineLearning, a + "machine" + [c] + "learning" + b)
  {
    var t1 := a + "machine" + "learning" + b;
    assert t1[|a|..|a| + 7] == "machine" && t1[|a| + 7..|a| + 15] == "learning";
    assert MachineLearningAt(t1, |a|);
    var t2 := a + "machine" + [c] + "learning" + b;
    assert t2[|a|..|a| + 7] == "machine" && t2[|a| + 7] == c && t2[|a| + 8..|a| + 16] == "learning";
    assert MachineLearningAt(t2, |a|);
  }

  /** A line break between the two words is not matched by `.`. */
  lemma MachineNewlineLearning()
    ensures !MachineLearningAt("machine\nlearning", 0)
  {
    assert "machine\nlearning"[7..15] != "learning" by {
      assert "machine\nlearning"[7] == '\n';
    }
  }

  // ---------------------------------------------------------------------------
  // getCategoryPosition

  /** `positions[category] || 50`: a listed category with a non-zero position
      gets it, any other category 50. */
  function Position(positions: map<string, int>, category: string): (r: int)
    ensures category in positions && positions[category] != 0 ==> r == positions[category]
    ensures category !in positions ==> r == 50
  {
    if category in positions && positions[category] != 0 then positions[category] else 50
  }

  // ---------------------------------------------------------------------------
  // slugToTitle

  /** `word.charAt(0).toUpperCase() + word.slice(1)`. */
  function Capitalise(w: string): (r: string)
    ensures |r| == |w|
    ensures |w| > 0 ==> r[0] == UpperChar(w[0]) && r[1..] == w[1..]
  {
    if w == [] then [] else [UpperChar(w[0])] + w[1..]
  }

  function CapitaliseAll(ws: seq<string>): (r: seq<string>)
    ensures |r| == |ws|
    ensures forall i :: 0 <= i < |ws| ==> r[i] == Capitalise(ws[i])
  {
    seq(|ws|, i requires 0 <= i < |ws| => Capitalise(ws[i]))
  }

  /** `slugToTitle(slug)`: split on '-', capitalise each piece, join with ' '. */
  function SlugToTitle(slug: string): string {
    Join(CapitaliseAll(Split(slug, '-')), " ")
  }

  /** `r` is `s` with every '-' turned into ' ' and the first character of every
      '-'-separated piece upper-cased. */
  predicate TitleOf(s: string, r: string) {
    && |r| == |s|
    && (forall i :: 0 <= i < |s| ==> s[i] == '-' ==> r[i] == ' ')
    && (forall i :: 0 <= i < |s| ==> s[i] != '-' && (i == 0 || s[i - 1] == '-') ==> r[i] == UpperChar(s[i]))
    && (forall i :: 0 < i < |s| ==> s[i] != '-' && s[i - 1] != '-' ==> r[i] == s[i])
  }

  /** The title has the slug's length, a space for every hyphen, and an
      upper-cased first letter for every word. */
  lemma SlugToTitleSpec(slug: string)
    ensures TitleOf(slug, SlugToTitle(slug))
  {
    var parts := Split(slug, '-');
    JoinSplit(slug, '-');
    TitleOfJoin(parts);
  }

  lemma {:induction false} TitleOfJoin(parts: seq<string>)
    requires |parts| >= 1
    requires forall k :: 0 <= k < |parts| ==> '-' !in parts[k]
    ensures TitleOf(Join(parts, "-"), Join(CapitaliseAll(parts), " "))
    decreases |parts|
  {
    if |parts| > 1 {
      var rest := parts[1..];
      TitleOfJoin(rest);
      assert CapitaliseAll(parts)[1..] == CapitaliseAll(rest);
      var s0 := Join(rest, "-");
      var r0 := Join(CapitaliseAll(rest), " ");
      var w := parts[0];
      var s := w + "-" + s0;
      var r := Capitalise(w) + " " + r0;
      assert Join(parts, "-") == s;
      assert Join(CapitaliseAll(parts), " ") == r;
      forall i | 0 <= i < |s|
        ensures s[i] == '-' ==> r[i] == ' '
        ensures s[i] != '-' && (i == 0 || s[i - 1] == '-') ==> r[i] == UpperChar(s[i])
        ensures 0 < i && s[i] != '-' && s[i - 1] != '-' ==> r[i] == s[i]
      {
        if i < |w| {
          assert s[i] == w[i] && r[i] == Capitalise(w)[i];
          if i > 0 {
            assert s[i - 1] == w[i - 1];
            assert Capitalise(w)[i] == Capitalise(w)[1..][i - 1];
          }
        } else if i == |w| {
          assert s[i] == '-' && r[i] == ' ';
        } else {
          assert s[i] == s0[i - |w| - 1] && r[i] == r0[i - |w| - 1];
          if i == |w| + 1 {
            assert s[i - 1] == '-';
          } else {
            assert s[i - 1] == s0[i - |w| - 2];
          }
        }
      }
    }
  }

  /** Hyphen-free slugs of one word only get their first letter upper-cased. */
  lemma SlugToTitleOneWord(w: string)
    requires w != [] && '-' !in w
    ensures SlugToTitle(w) == [UpperChar(w[0])] + w[1..]
  {
    SplitNoSep(w, '-');
  }

  /** The title of a category path is that of its last '/' segment, or of the
      whole path when that segment is empty. */
  function CategoryTitle(category: string): string {
    var last := Basename(category);
    SlugToTitle(if last == "" then category else last)
  }

  /** A category path `group/name` is titled after `name`; a category without
      '/' after itself. */
  lemma CategoryTitleLastSegment(group: string, name: string)
    requires '/' !in name
    ensures CategoryTitle(name) == SlugToTitle(name)
    ensures name != "" ==> CategoryTitle(group + "/" + name) == SlugToTitle(name)
  {
    SplitNoSep(name, '/');
    if name != "" {
      SplitLastPiece(group, name, '/');
    }
  }

  /** The last piece of `a + [d] + b` is `b` when `b` has no `d`. */
  lemma {:induction false} SplitLastPiece(a: string, b: string, d: char)
    requires d !in b
    ensures var p := Split(a + [d] + b, d); |p| >= 2 && p[|p| - 1] == b
    decreases |a|
  {
    if |a| == 0 {
      SplitNoSep(b, d);
      assert a + [d] + b == [d] + b;
      assert ([d] + b)[1..] == b;
    } else {
      var s := a + [d] + b;
      var t := s[1..];
      assert t == a[1..] + [d] + b;
      SplitLastPiece(a[1..], b, d);
      var pt := Split(t, d);
      assert |pt| >= 2 && pt[|pt| - 1] == b;
      var p := Split(s, d);
      if s[0] == d {
        assert p == [""] + pt;
      } else {
        assert p == [[s[0]] + pt[0]] + pt[1..];
      }
    }
  }

  // ---------------------------------------------------------------------------
  // escapeYamlString

  /** The string cannot be written as a plain YAML scalar as it stands: it has
      one of `: # > |` or a line break, or starts with a space or a quote. */
  predicate NeedsQuoting(s: string) {
    || ':' in s || '#' in s || '>' in s || '|' in s || '\n' in s
    || (|s| > 0 && (s[0] == ' ' || s[0] == '"' || s[0] == '\''))
  }

  /** `.replace(/"/g, '\\"')`: a backslash before every double quote. */
  function EscapeQuotes(s: string): (r: string)
    ensures forall i :: 0 <= i < |r| && r[i] == '"' ==> i > 0 && r[i - 1] == '\\'
    ensures '\n' in r <==> '\n' in s
    decreases |s|
  {
    if s == [] then []
    else
      var rest := EscapeQuotes(s[1..]);
      assert '\n' in s <==> s[0] == '\n' || '\n' in s[1..] by {
        assert s == [s[0]] + s[1..];
      }
      if s[0] == '"' then "\\\"" + rest else [s[0]] + rest
  }

  /** `.replace(/\n/g, ' ')`. */
  function NewlinesToSpaces(s: string): (r: string)
    ensures |r| == |s| && '\n' !in r
    ensures forall i :: 0 <= i < |s| ==> r[i] == (if s[i] == '\n' then ' ' else s[i])
  {
    seq(|s|, i requires 0 <= i < |s| => if s[i] == '\n' then ' ' else s[i])
  }

  /** `escapeYamlString(str)` as written: quoted with inner double quotes
      escaped and line breaks turned into spaces; backslashes are left alone. */
  function EscapeYamlString(s: string): (r: string)
    ensures !NeedsQuoting(s) ==> r == s
    ensures '\n' !in r
  {
    if NeedsQuoting(s) then "\"" + NewlinesToSpaces(EscapeQuotes(s)) + "\"" else s
  }

  /** Inside the quotes, every double quote is escaped. */
  lemma EscapeYamlStringQuotes(s: string)
    requires NeedsQuoting(s)
    ensures var r := EscapeYamlString(s);
      |r| >= 2 && r[0] == '"' && r[|r| - 1] == '"' &&
      forall i :: 0 < i < |r| - 1 && r[i] == '"' ==> r[i - 1] == '\\'
  {
    var b := NewlinesToSpaces(EscapeQuotes(s));
    var r := EscapeYamlString(s);
    assert r == "\"" + b + "\"";
    forall i | 0 < i < |r| - 1 && r[i] == '"' ensures r[i - 1] == '\\' {
      assert r[i] == b[i - 1];
      assert EscapeQuotes(s)[i - 1] == '"';
      if i > 1 {
        assert r[i - 1] == b[i - 2];
      }
    }
  }

  /** `\\` and `\"` before every backslash and double quote. */
  function EscapeBackslashesAndQuotes(s: string): string
    decreases |s|
  {
    if s == [] then []
    else
      var rest := EscapeBackslashesAndQuotes(s[1..]);
      if s[0] == '"' then "\\\"" + rest
      else if s[0] == '\\' then "\\\\" + rest
      else [s[0]] + rest
  }

  /** The quoting `escapeYamlString` evidently intends: backslashes are escaped
      as well as double quotes. */
  function EscapeYamlStringQuoted(s: string): (r: string)
    ensures !NeedsQuoting(s) ==> r == s
  {
    if NeedsQuoting(s) then "\"" + EscapeBackslashesAndQuotes(NewlinesToSpaces(s)) + "\"" else s
  }

  /** The body of a YAML double-quoted scalar after its opening quote: the
      escapes `\"` and `\\`, any other character as itself, and the closing
      quote as the very last character. Other escapes are refused, and line
      folding is not modelled, which is why the round trip below excludes
      carriage returns. */
  function DecodeQuotedBody(t: string): Option<string>
    decreases |t|
  {
    if t == [] then None
    else if t[0] == '"' then (if |t| == 1 then Some("") else None)
    else if t[0] == '\\' then
      if |t| >= 2 && (t[1] == '"' || t[1] == '\\') then
        match DecodeQuotedBody(t[2..])
        case Some(rest) => Some([t[1]] + rest)
        case None => None
      else None
    else
      match DecodeQuotedBody(t[1..])
      case Some(rest) => Some([t[0]] + rest)
      case None => None
  }

  /** Reading a double-quoted YAML scalar back. */
  function DecodeQuoted(q: string): Option<string> {
    if |q| >= 1 && q[0] == '"' then DecodeQuotedBody(q[1..]) else None
  }

  lemma {:induction false} DecodeEscaped(s: string)
    ensures DecodeQuotedBody(EscapeBackslashesAndQuotes(s) + "\"") == Some(s)
    decreases |s|
  {
    if s == [] {
      assert EscapeBackslashesAndQuotes(s) + "\"" == "\"";
    } else {
      DecodeEscaped(s[1..]);
      var rest := EscapeBackslashesAndQuotes(s[1..]);
      assert [s[0]] + s[1..] == s;
      if s[0] == '"' || s[0] == '\\' {
        var t := [ '\\', s[0] ] + rest + "\"";
        assert EscapeBackslashesAndQuotes(s) + "\"" == t;
        assert t[2..] == rest + "\"";
      } else {
        var t := [s[0]] + rest + "\"";
        assert EscapeBackslashesAndQuotes(s) + "\"" == t;
        assert t[1..] == rest + "\"";
      }
    }
  }

  /** The intended quoting round-trips: a string that needs quoting reads back
      as itself with line breaks turned into spaces. */
  lemma EscapeYamlStringQuotedRoundTrip(s: string)
    requires NeedsQuoting(s) && '\r' !in s
    ensures DecodeQuoted(EscapeYamlStringQuoted(s)) == Some(NewlinesToSpaces(s))
  {
    var b := NewlinesToSpaces(s);
    assert EscapeYamlStringQuoted(s) == "\"" + EscapeBackslashesAndQuotes(b) + "\"";
    DecodeQuotedEscaped(b);
  }

  /** Quoting an escaped string and reading it back gives the string. */
  lemma DecodeQuotedEscaped(b: string)
    ensures DecodeQuoted("\"" + EscapeBackslashesAndQuotes(b) + "\"") == Some(b)
  {
    DecodeEscaped(b);
    var q := "\"" + EscapeBackslashesAndQuotes(b) + "\"";
    assert q[1..] == EscapeBackslashesAndQuotes(b) + "\"";
  }

  /** As written, a string ending in a backslash is quoted into a scalar whose
      closing quote is read as an escaped quote: `a:\` becomes `"a:\"`, which
      does not read back at all. */
  lemma EscapeYamlStringTrailingBackslash()
    ensures EscapeYamlString("a:\\") == "\"a:\\\""
    ensures DecodeQuoted(EscapeYamlString("a:\\")).None?
    ensures DecodeQuoted(EscapeYamlStringQuoted("a:\\")) == Some("a:\\")
  {
    var s := "a:\\";
    assert NeedsQuoting(s) by { assert s[1] == ':'; }
    assert EscapeQuotes(s) == s by {
      assert EscapeQuotes(s[2..]) == s[2..];
      assert EscapeQuotes(s[1..]) == s[1..];
    }
    assert NewlinesToSpaces(s) == s;
    EscapeYamlStringQuotedRoundTrip(s);
    var t := "a:\\\"";
    assert DecodeQuotedBody(t[4..]) == None;
    assert DecodeQuotedBody(t[2..]).None?;
    assert DecodeQuotedBody(t[1..]).None?;
  }

  // ---------------------------------------------------------------------------
  // escapeMarkdownContent

  /** `\{\{([^}]+)\}\}` matches at the start of `s`: then the length of what it
      matched. The group can only end at the first '}', so the match exists
      exactly when that '}' is doubled and the group is not empty. */
  function BracedLength(s: string): (n: Option<nat>)
    ensures n.Some? ==> 5 <= n.value <= |s| && s[0] == '{' && s[1] == '{' &&
                        s[n.value - 2] == '}' && s[n.value - 1] == '}' &&
                        forall k :: 2 <= k < n.value - 2 ==> s[k] != '}'
  {
    if |s| >= 2 && s[0] == '{' && s[1] == '{' then
      var e := NextIndex(s, 2, '}');
      if e > 2 && e + 2 <= |s| && s[e + 1] == '}' then Some(e + 2) else None
    else None
  }

  /** A piece of the scanned text: an unmatched character, or a match `{{x}}`. */
  datatype Piece = Plain(c: char) | Braced(inner: string)

  /** Leftmost, non-overlapping matching from the start of `s`. */
  function Scan(s: string): seq<Piece>
    decreases |s|
  {
    if s == [] then []
    else match BracedLength(s)
      case Some(n) => [Braced(s[2..n - 2])] + Scan(s[n..])
      case None => [Plain(s[0])] + Scan(s[1..])
  }

  lemma ScanStep(s: string)
    requires s != []
    ensures BracedLength(s).Some? ==>
      Scan(s) == [Braced(s[2..BracedLength(s).value - 2])] + Scan(s[BracedLength(s).value..])
    ensures BracedLength(s).None? ==> Scan(s) == [Plain(s[0])] + Scan(s[1..])
  {
  }

  /** Every match the scan finds has a non-empty group without '}'. */
  lemma {:induction false} ScanMatches(s: string)
    ensures forall k :: 0 <= k < |Scan(s)| && Scan(s)[k].Braced? ==>
      Scan(s)[k].inner != [] && '}' !in Scan(s)[k].inner
    decreases |s|
  {
    if s != [] {
      var b := BracedLength(s);
      if b.Some? {
        var n := b.value;
        ScanMatches(s[n..]);
        var x := s[2..n - 2];
        assert forall k :: 0 <= k < |x| ==> x[k] == s[k + 2];
        ScanStep(s);
      } else {
        ScanMatches(s[1..]);
        ScanStep(s);
      }
    }
  }

  function Original(ps: seq<Piece>): string
    decreases |ps|
  {
    if ps == [] then []
    else (match ps[0] case Plain(c) => [c] case Braced(x) => "{{" + x + "}}") + Original(ps[1..])
  }

  function Escaped(ps: seq<Piece>): string
    decreases |ps|
  {
    if ps == [] then []
    else (match ps[0] case Plain(c) => [c] case Braced(x) => "`{{" + x + "}}`") + Escaped(ps[1..])
  }

  /** `escapeMarkdownContent(str)`: every match wrapped in backticks. */
  function EscapeMarkdown(s: string): string {
    Escaped(Scan(s))
  }

  /** The scan loses nothing: putting the pieces back together gives the input,
      so the escape changes nothing but the backticks around each match. */
  lemma {:induction false} ScanOriginal(s: string)
    ensures Original(Scan(s)) == s
    decreases |s|
  {
    if s != [] {
      var b := BracedLength(s);
      if b.Some? {
        ScanOriginal(s[b.value..]);
        ScanOriginalBraced(s, b.value);
      } else {
        ScanOriginal(s[1..]);
        ScanOriginalPlain(s);
      }
    }
  }

  /** The step of `ScanOriginal` at a match of length `n`. */
  lemma ScanOriginalBraced(s: string, n: nat)
    requires BracedLength(s) == Some(n) && Original(Scan(s[n..])) == s[n..]
    ensures Original(Scan(s)) == s
  {
    BracedSplit(s, n);
    ScanStep(s);
    OriginalCons(Braced(s[2..n - 2]), Scan(s[n..]));
  }

  /** The step of `ScanOriginal` at an unmatched character. */
  lemma ScanOriginalPlain(s: string)
    requires s != [] && BracedLength(s).None? && Original(Scan(s[1..])) == s[1..]
    ensures Original(Scan(s)) == s
  {
    ScanStep(s);
    OriginalCons(Plain(s[0]), Scan(s[1..]));
    assert s == [s[0]] + s[1..];
  }

  lemma BracedSplit(s: string, n: nat)
    requires 5 <= n <= |s| && s[0] == '{' && s[1] == '{' && s[n - 2] == '}' && s[n - 1] == '}'
    ensures s == "{{" + s[2..n - 2] + "}}" + s[n..]
  {
    assert s == s[..2] + s[2..n - 2] + s[n - 2..n] + s[n..];
  }

  lemma OriginalCons(p: Piece, ps: seq<Piece>)
    ensures Original([p] + ps) == (match p case Plain(c) => [c] case Braced(x) => "{{" + x + "}}") + Original(ps)
  {
    assert ([p] + ps)[1..] == ps;
  }

  /** Text without `{{` has no match and is left as it is. */
  lemma {:induction false} EscapeMarkdownNoBraces(s: string)
    requires !Contains(s, "{{")
    ensures Scan(s) == seq(|s|, i requires 0 <= i < |s| => Plain(s[i]))
    ensures EscapeMarkdown(s) == s
    decreases |s|
  {
    if s != [] {
      if |s| >= 2 && s[0] == '{' && s[1] == '{' {
        ContainsAtStart(s, "{{");
      }
      if Contains(s[1..], "{{") {
        ContainsInTail(s, "{{");
      }
      EscapeMarkdownNoBraces(s[1..]);
      assert s == [s[0]] + s[1..];
    }
  }

  lemma ContainsAtStart(s: string, w: string)
    requires w <= s
    ensures Contains(s, w)
  {
    assert s[0..] == s;
  }

  lemma ContainsInTail(s: string, w: string)
    requires |s| > 0 && Contains(s[1..], w)
    ensures Contains(s, w)
  {
    var i :| 0 <= i <= |s[1..]| && w <= s[1..][i..];
    assert s[1..][i..] == s[i + 1..];
  }

  /** A match at the very start is wrapped: `{{x}}` followed by `rest` becomes
      `` `{{x}}` `` followed by the escaped rest. */
  lemma EscapeMarkdownMatch(x: string, rest: string)
    requires x != [] && '}' !in x
    ensures EscapeMarkdown("{{" + x + "}}" + rest) == "`{{" + x + "}}`" + EscapeMarkdown(rest)
  {
    var s := "{{" + x + "}}" + rest;
    var n := |x| + 4;
    assert forall k :: 2 <= k < |x| + 2 ==> s[k] == x[k - 2];
    assert NextIndex(s, 2, '}') == |x| + 2 by {
      NextIndexIs(s, 2, '}', |x| + 2);
    }
    assert BracedLength(s) == Some(n);
    assert s[2..n - 2] == x && s[n..] == rest;
  }

  // ---------------------------------------------------------------------------
  // Records built per input file, and grouping by category

  /** `for (const f of files) out.push(make(f))`. */
  method BuildEach<S, T>(files: seq<S>, make: S -> T) returns (out: seq<T>)
    ensures |out| == |files|
    ensures forall i :: 0 <= i < |files| ==> out[i] == make(files[i])
  {
    out := [];
    for i := 0 to |files|
      invariant |out| == i
      invariant forall k :: 0 <= k < i ==> out[k] == make(files[k])
    {
      out := out + [make(files[i])];
    }
  }

  /** The records of `xs` whose key is `c`, in input order. */
  function Bucket<T>(xs: seq<T>, key: T -> string, c: string): (r: seq<T>)
    ensures |r| <= |xs|
    ensures forall i :: 0 <= i < |r| ==> key(r[i]) == c
    decreases |xs|
  {
    if xs == [] then []
    else
      var last := xs[|xs| - 1];
      Bucket(xs[..|xs| - 1], key, c) + (if key(last) == c then [last] else [])
  }

  /** The categories that occur among `xs`. */
  function Keys<T>(xs: seq<T>, key: T -> string): set<string> {
    set i | 0 <= i < |xs| :: key(xs[i])
  }

  /** The `byCategory` dictionary filled in place: one bucket per category that
      occurs, holding that category's records in input order. */
  method GroupBy<T>(xs: seq<T>, key: T -> string) returns (groups: map<string, seq<T>>)
    ensures groups.Keys == Keys(xs, key)
    ensures forall c :: c in groups ==> groups[c] == Bucket(xs, key, c)
  {
    groups := map[];
    for i := 0 to |xs|
      invariant groups.Keys == Keys(xs[..i], key)
      invariant forall c :: c in groups ==> groups[c] == Bucket(xs[..i], key, c)
    {
      var c := key(xs[i]);
      assert xs[..i + 1][..i] == xs[..i];
      if c !in groups {
        BucketEmpty(xs[..i], key, c);
        groups := groups[c := []];
      }
      groups := groups[c := groups[c] + [xs[i]]];
      assert Keys(xs[..i + 1], key) == Keys(xs[..i], key) + {c} by {
        assert xs[..i + 1][i] == xs[i];
        forall d | d in Keys(xs[..i + 1], key)
          ensures d in Keys(xs[..i], key) + {c}
        {
          var k :| 0 <= k < i + 1 && key(xs[..i + 1][k]) == d;
          if k < i {
            assert xs[..i + 1][k] == xs[..i][k];
          }
        }
      }
    }
    assert xs[..|xs|] == xs;
  }

  /** A category that does not occur has an empty bucket. */
  lemma {:induction false} BucketEmpty<T>(xs: seq<T>, key: T -> string, c: string)
    requires c !in Keys(xs, key)
    ensures Bucket(xs, key, c) == []
    decreases |xs|
  {
    if xs != [] {
      var init := xs[..|xs| - 1];
      assert forall i :: 0 <= i < |init| ==> init[i] == xs[i];
      assert Keys(init, key) <= Keys(xs, key);
      BucketEmpty(init, key, c);
      assert key(xs[|xs| - 1]) in Keys(xs, key);
    }
  }

  /** Every record sits in the bucket of its own category. */
  lemma {:induction false} InOwnBucket<T>(xs: seq<T>, key: T -> string, i: nat)
    requires i < |xs|
    ensures xs[i] in Bucket(xs, key, key(xs[i]))
    decreases |xs|
  {
    if i < |xs| - 1 {
      InOwnBucket(xs[..|xs| - 1], key, i);
    }
  }

  /** Grouping keeps input order: the bucket of a concatenation is the
      concatenation of the buckets. */
  lemma {:induction false} BucketConcat<T>(xs: seq<T>, ys: seq<T>, key: T -> string, c: string)
    ensures Bucket(xs + ys, key, c) == Bucket(xs, key, c) + Bucket(ys, key, c)
    decreases |ys|
  {
    if ys == [] {
      assert xs + ys == xs;
    } else {
      var init := ys[..|ys| - 1];
      assert (xs + ys)[..|xs + ys| - 1] == xs + init;
      BucketConcat(xs, init, key, c);
    }
  }

  /** Every record is in exactly one bucket: the one of its own category. */
  lemma ExactlyOneBucket<T>(xs: seq<T>, key: T -> string, i: nat, c: string)
    requires i < |xs|
    ensures xs[i] in Bucket(xs, key, c) <==> c == key(xs[i])
  {
    InOwnBucket(xs, key, i);
  }
}
