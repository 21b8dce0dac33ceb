/**
 * The documentation generators read their headers with single-line regular
 * expressions instead of the YAML library: `key:\s*([^\n]+)` for a value,
 * `key:\s*(\w+)` for a word and `key:\s*([^\n]+(?:\n\s+[^\n]+)*)` for a
 * value continued on indented lines. Each reader is modelled with the regex
 * engine's outcome: the search tries every occurrence of the key from the
 * left, greedy runs take as much as they can, and give back characters only
 * when what follows cannot match otherwise.
 */
module DocsFrontmatter {
  import opened Text
  import Frontmatter

  /** End of the run of `\s` characters starting at `p`. */
  function SkipSpace(y: string, p: nat): (q: nat)
    requires p <= |y|
    ensures p <= q <= |y| && (q == |y| || !IsSpace(y[q]))
    ensures forall k :: p <= k < q ==> IsSpace(y[k])
    decreases |y| - p
  {
    if p < |y| && IsSpace(y[p]) then SkipSpace(y, p + 1) else p
  }

  /** End of the run of `\w` characters starting at `p`. */
  function WordEnd(y: string, p: nat): (e: nat)
    requires p <= |y|
    ensures p <= e <= |y| && (e == |y| || !IsWordChar(y[e]))
    ensures forall k :: p <= k < e ==> IsWordChar(y[k])
    decreases |y| - p
  {
    if p < |y| && IsWordChar(y[p]) then WordEnd(y, p + 1) else p
  }

  /** The last index in `[lo, hi)` holding something other than '\n'. */
  function LastNonNewline(y: string, lo: nat, hi: nat): (r: Option<nat>)
    requires lo <= hi <= |y|
    ensures r.Some? ==> lo <= r.value < hi && y[r.value] != '\n' &&
                        forall k :: r.value < k < hi ==> y[k] == '\n'
    ensures r.None? ==> forall k :: lo <= k < hi ==> y[k] == '\n'
    decreases hi - lo
  {
    if lo == hi then None
    else if y[hi - 1] != '\n' then Some(hi - 1)
    else LastNonNewline(y, lo, hi - 1)
  }

  /** Where the group of `\s*([^\n]+)` starts when the match begins at `p`:
      after all the whitespace if a character follows it; otherwise `\s*`
      gives back characters until the group can take one that is not '\n'. */
  function LineStart(y: string, p: nat): (r: Option<nat>)
    requires p <= |y|
    ensures r.Some? ==> p <= r.value < |y| && y[r.value] != '\n'
  {
    var q := SkipSpace(y, p);
    if q < |y| then Some(q) else LastNonNewline(y, p, |y|)
  }

  /** End of the capture of `(?:\n\s+[^\n]+)*` from `e`: each round needs a
      line break, at least one whitespace character and then a character
      other than '\n'. */
  function Continuation(y: string, e: nat): (r: nat)
    requires e <= |y|
    ensures e <= r <= |y|
    decreases |y| - e
  {
    if e < |y| && y[e] == '\n' then
      var q := SkipSpace(y, e + 1);
      if e + 1 < q < |y| then Continuation(y, NextIndex(y, q, '\n'))
      else if e + 1 < q then
        match LastNonNewline(y, e + 2, |y|)
        case Some(k) => Continuation(y, NextIndex(y, k, '\n'))
        case None => e
      else e
    else e
  }

  function TrimAll(lines: seq<string>): (r: seq<string>)
    ensures |r| == |lines|
    ensures forall i :: 0 <= i < |lines| ==> r[i] == Trim(lines[i])
  {
    seq(|lines|, i requires 0 <= i < |lines| => Trim(lines[i]))
  }

  /** `\s*([^\n]+)` followed by `.trim()`, the match beginning at `p`. */
  function ReadLine(y: string, p: nat): Option<string>
    requires p <= |y|
  {
    var s := LineStart(y, p);
    if s.Some? then Some(Trim(y[s.value..NextIndex(y, s.value, '\n')])) else None
  }

  /** `\s*(\w+)`, the match beginning at `p`. */
  function ReadWord(y: string, p: nat): Option<string>
    requires p <= |y|
  {
    var q := SkipSpace(y, p);
    if q < |y| && IsWordChar(y[q]) then Some(y[q..WordEnd(y, q)]) else None
  }

  /** `\s*([^\n]+(?:\n\s+[^\n]+)*)`, the match beginning at `p`, followed by
      splitting the capture into lines, trimming each, joining them with
      one space and trimming the result. */
  function ReadContinued(y: string, p: nat): Option<string>
    requires p <= |y|
  {
    var s := LineStart(y, p);
    if s.Some? then
      var e := Continuation(y, NextIndex(y, s.value, '\n'));
      Some(Trim(Join(TrimAll(Split(y[s.value..e], '\n')), " ")))
    else None
  }

  /** The three readers. */
  datatype Reader = LineValue | Word | Continued

  function ReadAt(rd: Reader, y: string, p: nat): Option<string>
    requires p <= |y|
  {
    match rd
    case LineValue => ReadLine(y, p)
    case Word => ReadWord(y, p)
    case Continued => ReadContinued(y, p)
  }

  /** Where the regex `key` + reader matches first, trying the occurrences
      of `key` that end at `e` or later: the end of the leftmost occurrence
      after which the reader can match. */
  function MatchAt(y: string, key: string, e: nat, rd: Reader): (r: Option<nat>)
    requires |key| <= e <= |y|
    ensures r.Some? ==> e <= r.value <= |y| && KeyEndsAt(y, key, r.value) && ReadAt(rd, y, r.value).Some?
    decreases |y| - e
  {
    if KeyEndsAt(y, key, e) && ReadAt(rd, y, e).Some? then Some(e)
    else if e < |y| then MatchAt(y, key, e + 1, rd)
    else None
  }

  /** An occurrence of `key` ends at `e`. */
  predicate KeyEndsAt(y: string, key: string, e: nat) {
    |key| <= e <= |y| && key <= y[e - |key|..]
  }

  /** `y.match(regex)?.[1]` with the reader's post-processing. */
  function Search(y: string, key: string, rd: Reader): Option<string> {
    if |y| < |key| then None
    else
      var j := MatchAt(y, key, |key|, rd);
      if j.Some? then ReadAt(rd, y, j.value) else None
  }

  /** A word read by `(\w+)` is a non-empty run of word characters. */
  lemma SearchWord(y: string, key: string)
    ensures var r := Search(y, key, Word);
      r.Some? ==> |r.value| > 0 && forall i :: 0 <= i < |r.value| ==> IsWordChar(r.value[i])
  {
    if |key| <= |y| {
      var j := MatchAt(y, key, |key|, Word);
      if j.Some? {
        ReadWordShape(y, j.value);
      }
    }
  }

  lemma ReadWordShape(y: string, p: nat)
    requires p <= |y|
    ensures var r := ReadWord(y, p);
      r.Some? ==> |r.value| > 0 && forall i :: 0 <= i < |r.value| ==> IsWordChar(r.value[i])
  {
  }

  /** A key that does not occur reads as absent. */
  lemma SearchAbsent(y: string, key: string, rd: Reader)
    requires !Contains(y, key)
    ensures Search(y, key, rd).None?
  {
  }

  /** A value read from a single line is trimmed and has no line break. */
  lemma SearchLine(y: string, key: string)
    ensures var r := Search(y, key, LineValue);
      r.Some? ==> '\n' !in r.value && Trim(r.value) == r.value
  {
    if |key| <= |y| {
      var j := MatchAt(y, key, |key|, LineValue);
      if j.Some? {
        ReadLineShape(y, j.value);
      }
    }
  }

  lemma ReadLineShape(y: string, p: nat)
    requires p <= |y|
    ensures var r := ReadLine(y, p);
      r.Some? ==> '\n' !in r.value && Trim(r.value) == r.value
  {
    var s := LineStart(y, p);
    if s.Some? {
      var line := y[s.value..NextIndex(y, s.value, '\n')];
      TrimNoNewline(line);
      TrimIdempotent(line);
    }
  }

  /** Trimming keeps a string free of line breaks. */
  lemma TrimNoNewline(s: string)
    requires '\n' !in s
    ensures '\n' !in Trim(s)
  {
    var t := TrimStart(s);
    var r := TrimEnd(t);
    assert t == s[|s| - |t|..];
    assert r == t[..|r|];
    forall i | 0 <= i < |r|
      ensures r[i] != '\n'
    {
      assert r[i] == t[i] == s[|s| - |t| + i];
    }
  }

  lemma TrimIdempotent(s: string)
    ensures Trim(Trim(s)) == Trim(s)
  {
    var r := Trim(s);
    if r != [] {
      TrimNoEdgeSpace(r);
    }
  }

  /** A string that neither starts nor ends with whitespace is its own trim. */
  lemma TrimNoEdgeSpace(s: string)
    requires s == [] || (!IsSpace(s[0]) && !IsSpace(s[|s| - 1]))
    ensures Trim(s) == s
  {
    assert TrimStart(s) == s;
  }

  // ---------------------------------------------------------------------------
  // A description continued on an indented line

  /** After `key` and one space, a description line `a`, a line break, an
      indented line `b`: the reader joins the two lines with one space. */
  lemma ContinuedTwoLines(key: string, a: string, b: string)
    requires a != [] && b != []
    requires '\n' !in a && '\n' !in b
    requires !IsSpace(a[0]) && !IsSpace(a[|a| - 1]) && !IsSpace(b[0]) && !IsSpace(b[|b| - 1])
    ensures var y := key + " " + a + "\n " + b;
      ReadContinued(y, |key|) == Some(a + " " + b)
  {
    var y := key + " " + a + "\n " + b;
    var ls := [" " + b];
    TwoLinesLayout(key, a, b);
    ContinuedCapture(y, |key|, " ", a, ls, "");
    ContinuedText(a, ls);
    TwoLinesJoined(a, b);
  }

  lemma TwoLinesLayout(key: string, a: string, b: string)
    requires b != [] && '\n' !in b && !IsSpace(b[0])
    ensures (key + " " + a + "\n " + b)[|key|..] == " " + a + Indented([" " + b]) + ""
    ensures IndentedLine(" " + b)
  {
    assert Indented([" " + b]) == "\n" + (" " + b);
    assert (" " + b)[1] == b[0];
  }

  lemma TwoLinesJoined(a: string, b: string)
    requires a != [] && b != []
    requires !IsSpace(a[0]) && !IsSpace(a[|a| - 1]) && !IsSpace(b[0]) && !IsSpace(b[|b| - 1])
    ensures Join(TrimAll([a] + [" " + b]), " ") == a + " " + b
  {
    TrimTwo(a, b);
    assert [a] + [" " + b] == [a, " " + b];
  }

  lemma ContinuedIs(y: string, p: nat, s: nat, e0: nat, e: nat)
    requires p <= s < |y| && LineStart(y, p) == Some(s)
    requires s <= e0 <= |y| && NextIndex(y, s, '\n') == e0 && Continuation(y, e0) == e
    ensures ReadContinued(y, p) == Some(Trim(Join(TrimAll(Split(y[s..e], '\n')), " ")))
  {
  }

  lemma TrimTwo(a: string, b: string)
    requires a != [] && b != []
    requires !IsSpace(a[0]) && !IsSpace(a[|a| - 1]) && !IsSpace(b[0]) && !IsSpace(b[|b| - 1])
    ensures TrimAll([a, " " + b]) == [a, b]
  {
    TrimNoEdgeSpace(a);
    TrimLeadingSpace(b);
  }

  lemma {:induction false} SplitAfterPiece(a: string, c: string, d: char)
    requires d !in a
    ensures Split(a + [d] + c, d) == [a] + Split(c, d)
    decreases |a|
  {
    if a == [] {
      assert a + [d] + c == [d] + c;
      assert ([d] + c)[1..] == c;
    } else {
      SplitAfterPiece(a[1..], c, d);
      assert (a + [d] + c)[1..] == a[1..] + [d] + c;
      assert [a[0]] + a[1..] == a;
    }
  }


  lemma TrimLeadingSpace(b: string)
    requires b != [] && !IsSpace(b[0]) && !IsSpace(b[|b| - 1])
    ensures Trim(" " + b) == b
  {
    assert (" " + b)[1..] == b;
    assert TrimStart(" " + b) == TrimStart(b);
    TrimNoEdgeSpace(b);
  }

  // ---------------------------------------------------------------------------
  // A description continued on any number of indented lines

  /** The first line of a value: it starts with something other than
      whitespace and holds no line break. */
  predicate FirstLine(l: string) {
    l != [] && !IsSpace(l[0]) && '\n' !in l
  }

  /** A continuation line: indented, on one line, and not blank. */
  predicate IndentedLine(l: string) {
    l != [] && IsSpace(l[0]) && '\n' !in l && !AllSpace(l)
  }

  /** What may follow a continued value: nothing, or a line break and then a
      line that is not indented. */
  predicate UnindentedRest(t: string) {
    t == [] || (t[0] == '\n' && (|t| == 1 || !IsSpace(t[1])))
  }

  /** The lines `ls`, each preceded by a line break. */
  function Indented(ls: seq<string>): string
    decreases |ls|
  {
    if ls == [] then "" else "\n" + ls[0] + Indented(ls[1..])
  }

  /** A text laid out as a line break, a line `l` and a rest `r`, from `e` on. */
  lemma LineParts(y: string, e: nat, l: string, r: string)
    requires e <= |y| && y[e..] == "\n" + l + r
    ensures e + 1 + |l| <= |y| && y[e] == '\n'
    ensures y[e + 1..e + 1 + |l|] == l && y[e + 1 + |l|..] == r
  {
    assert y[e] == y[e..][0];
    assert y[e + 1..e + 1 + |l|] == y[e..][1..1 + |l|];
    assert y[e + 1 + |l|..] == y[e..][1 + |l|..];
  }

  /** `\s*` stops no later than a character that is not whitespace. */
  lemma SkipSpaceBefore(y: string, p: nat, j: nat)
    requires p <= j < |y| && !IsSpace(y[j])
    ensures SkipSpace(y, p) <= j
  {
  }

  /** One round of `(?:\n\s+[^\n]+)`: it takes a whole indented line. */
  lemma IndentedStep(y: string, e: nat, l: string, r: string, e1: nat, m: nat)
    requires e <= |y| && y[e..] == "\n" + l + r
    requires IndentedLine(l) && (r == [] || r[0] == '\n')
    requires e1 == e + 1 + |l| && e1 <= |y| && Continuation(y, e1) == m
    ensures Continuation(y, e) == m
  {
    LineParts(y, e, l, r);
    if e1 < |y| {
      assert y[e1] == y[e1..][0] == r[0];
    }
    IndentedLineSkip(y, e, l);
    ContinuationRound(y, e, e1);
  }

  /** `\s+` stops inside an indented line, and `[^\n]+` runs to its end. */
  lemma IndentedLineSkip(y: string, e: nat, l: string)
    requires e + 1 + |l| <= |y| && y[e + 1..e + 1 + |l|] == l && IndentedLine(l)
    requires e + 1 + |l| == |y| || y[e + 1 + |l|] == '\n'
    ensures var q := SkipSpace(y, e + 1);
      e + 1 < q < |y| && NextIndex(y, q, '\n') == e + 1 + |l|
  {
    var e1 := e + 1 + |l|;
    var j :| 0 <= j < |l| && !IsSpace(l[j]);
    assert y[e + 1 + j] == l[j];
    SkipSpaceBefore(y, e + 1, e + 1 + j);
    assert y[e + 1] == l[0];
    var q := SkipSpace(y, e + 1);
    assert q == SkipSpace(y, e + 2);
    assert forall k :: q <= k < e1 ==> y[k] == l[k - e - 1];
    NextIndexIs(y, q, '\n', e1);
  }

  /** A round that matches moves the end of the capture to the end of its line. */
  lemma ContinuationRound(y: string, e: nat, e1: nat)
    requires e < |y| && y[e] == '\n'
    requires var q := SkipSpace(y, e + 1); e + 1 < q < |y| && NextIndex(y, q, '\n') == e1
    ensures Continuation(y, e) == Continuation(y, e1)
  {
  }

  /** The rounds of `(?:\n\s+[^\n]+)*` take every indented line and stop
      before an unindented rest. */
  lemma {:induction false} ContinuationRuns(y: string, e: nat, ls: seq<string>, t: string)
    requires e <= |y| && y[e..] == Indented(ls) + t
    requires forall i :: 0 <= i < |ls| ==> IndentedLine(ls[i])
    requires UnindentedRest(t)
    ensures Continuation(y, e) == |y| - |t|
    decreases |ls|
  {
    if ls == [] {
      ContinuationStops(y, e, t);
    } else {
      var l := ls[0];
      var r := Indented(ls[1..]) + t;
      var e1 := e + 1 + |l|;
      var m := |y| - |t|;
      IndentedCons(ls, t);
      LineParts(y, e, l, r);
      ContinuationRuns(y, e1, ls[1..], t);
      IndentedStep(y, e, l, r, e1, m);
    }
  }

  lemma IndentedCons(ls: seq<string>, t: string)
    requires ls != [] && UnindentedRest(t)
    ensures Indented(ls) + t == "\n" + ls[0] + (Indented(ls[1..]) + t)
    ensures var r := Indented(ls[1..]) + t; r == [] || r[0] == '\n'
  {
    if |ls| > 1 {
      assert Indented(ls[1..])[0] == '\n';
    }
  }

  /** No round matches before an unindented rest. */
  lemma ContinuationStops(y: string, e: nat, t: string)
    requires e <= |y| && y[e..] == t && UnindentedRest(t)
    ensures Continuation(y, e) == |y| - |t|
  {
    if t != [] {
      assert y[e] == y[e..][0];
      if |t| > 1 {
        assert y[e + 1] == y[e..][1];
        assert SkipSpace(y, e + 1) == e + 1;
      }
    }
  }

  /** `\s*` stops at the first line, which `[^\n]+` then takes whole. */
  lemma FirstLineAt(y: string, p: nat, ws: string, l0: string, r: string, s: nat, e0: nat)
    requires p <= |y| && y[p..] == ws + l0 + r
    requires AllSpace(ws) && FirstLine(l0) && (r == [] || r[0] == '\n')
    requires s == p + |ws| && e0 == s + |l0|
    ensures e0 <= |y| && LineStart(y, p) == Some(s) && NextIndex(y, s, '\n') == e0
    ensures y[s..e0] == l0 && y[e0..] == r
  {
    assert |y| - p == |ws| + |l0| + |r|;
    forall k | p <= k < p + |ws|
      ensures IsSpace(y[k])
    {
      assert y[k] == y[p..][k - p] == ws[k - p];
    }
    forall k | 0 <= k < |l0|
      ensures y[s + k] == l0[k]
    {
      assert y[s + k] == y[p..][|ws| + k];
    }
    var q := SkipSpace(y, p);
    assert y[s] == l0[0];
    assert q == s;
    if e0 < |y| {
      assert y[e0] == y[p..][|ws| + |l0|] == r[0];
    }
    assert y[e0..] == y[p..][|ws| + |l0|..];
    forall k | s <= k < e0
      ensures y[k] != '\n'
    {
      assert y[s + (k - s)] == l0[k - s];
    }
    NextIndexIs(y, s, '\n', e0);
  }

  /** The capture is the first line and every indented line after it. */
  lemma ContinuedCapture(y: string, p: nat, ws: string, l0: string, ls: seq<string>, t: string)
    requires p <= |y| && y[p..] == ws + l0 + Indented(ls) + t
    requires AllSpace(ws) && FirstLine(l0) && UnindentedRest(t)
    requires forall i :: 0 <= i < |ls| ==> IndentedLine(ls[i])
    ensures ReadContinued(y, p) == Some(Trim(Join(TrimAll(Split(l0 + Indented(ls), '\n')), " ")))
  {
    var s := p + |ws|;
    var e0 := s + |l0|;
    var m := |y| - |t|;
    ContinuedBounds(y, p, ws, l0, ls, t, s, e0, m);
    ContinuedIs(y, p, s, e0, m);
  }

  /** Where the capture starts, where its first line ends, and where it ends. */
  lemma ContinuedBounds(y: string, p: nat, ws: string, l0: string, ls: seq<string>, t: string,
                        s: nat, e0: nat, m: nat)
    requires p <= |y| && y[p..] == ws + l0 + Indented(ls) + t
    requires AllSpace(ws) && FirstLine(l0) && UnindentedRest(t)
    requires forall i :: 0 <= i < |ls| ==> IndentedLine(ls[i])
    requires s == p + |ws| && e0 == s + |l0| && m == |y| - |t|
    ensures p <= s < e0 <= m <= |y| && LineStart(y, p) == Some(s) && NextIndex(y, s, '\n') == e0
    ensures Continuation(y, e0) == m && y[s..m] == l0 + Indented(ls)
  {
    var r := Indented(ls) + t;
    assert y[p..] == ws + l0 + r;
    IndentedStart(ls, t);
    FirstLineAt(y, p, ws, l0, r, s, e0);
    ContinuationRuns(y, e0, ls, t);
    CaptureParts(y, s, e0, m, l0, Indented(ls), t);
  }

  /** Nothing but a line break can follow the first line. */
  lemma IndentedStart(ls: seq<string>, t: string)
    requires UnindentedRest(t)
    ensures var r := Indented(ls) + t; r == [] || r[0] == '\n'
  {
    if ls != [] {
      assert Indented(ls)[0] == '\n';
    }
  }

  lemma CaptureParts(y: string, s: nat, e0: nat, m: nat, a: string, b: string, t: string)
    requires s <= e0 <= |y| && y[s..e0] == a && y[e0..] == b + t && m == |y| - |t|
    ensures s <= m <= |y| && y[s..m] == a + b
  {
    assert y[e0..m] == (b + t)[..|b|];
    assert y[s..m] == y[s..e0] + y[e0..m];
  }

  /** The lines with line breaks in between. */
  lemma {:induction false} IndentedJoin(a: string, ls: seq<string>)
    ensures a + Indented(ls) == Join([a] + ls, "\n")
    decreases |ls|
  {
    if ls != [] {
      IndentedJoin(ls[0], ls[1..]);
      assert ([a] + ls)[1..] == [ls[0]] + ls[1..];
    }
  }

  /** Splitting lines joined with a line break gives back the lines. */
  lemma {:induction false} SplitJoinLines(lines: seq<string>)
    requires |lines| >= 1 && forall i :: 0 <= i < |lines| ==> '\n' !in lines[i]
    ensures Split(Join(lines, "\n"), '\n') == lines
    decreases |lines|
  {
    if |lines| == 1 {
      SplitNoSep(lines[0], '\n');
    } else {
      SplitJoinLines(lines[1..]);
      SplitAfterPiece(lines[0], Join(lines[1..], "\n"), '\n');
      assert [lines[0]] + lines[1..] == lines;
    }
  }

  /** A join of pieces starts with the first piece... */
  lemma JoinStart(parts: seq<string>, sep: string)
    requires |parts| >= 1 && parts[0] != []
    ensures Join(parts, sep) != [] && Join(parts, sep)[0] == parts[0][0]
  {
  }

  /** ...and ends with the last. */
  lemma {:induction false} JoinEnd(parts: seq<string>, sep: string)
    requires |parts| >= 1 && parts[|parts| - 1] != []
    ensures var j := Join(parts, sep); var last := parts[|parts| - 1];
      j != [] && j[|j| - 1] == last[|last| - 1]
    decreases |parts|
  {
    if |parts| > 1 {
      JoinEnd(parts[1..], sep);
    }
  }

  /** Trimming the lines leaves nothing for the outer `trim()` to remove. */
  lemma ContinuedText(l0: string, ls: seq<string>)
    requires FirstLine(l0) && forall i :: 0 <= i < |ls| ==> IndentedLine(ls[i])
    ensures Trim(Join(TrimAll(Split(l0 + Indented(ls), '\n')), " ")) == Join(TrimAll([l0] + ls), " ")
  {
    ContinuedLines(l0, ls);
    var lines := [l0] + ls;
    assert lines[0] == l0 && l0[0] == l0[0];
    TrimmedJoin(lines, |ls|);
  }

  /** Splitting the capture gives back its lines. */
  lemma ContinuedLines(l0: string, ls: seq<string>)
    requires FirstLine(l0) && forall i :: 0 <= i < |ls| ==> IndentedLine(ls[i])
    ensures Split(l0 + Indented(ls), '\n') == [l0] + ls
    ensures !AllSpace(([l0] + ls)[|ls|])
  {
    var lines := [l0] + ls;
    IndentedJoin(l0, ls);
    assert forall i :: 0 < i < |lines| ==> lines[i] == ls[i - 1];
    SplitJoinLines(lines);
    if ls == [] {
      assert !IsSpace(l0[0]);
    }
  }

  /** Lines whose first and last (at `last`) hold something other than
      whitespace, trimmed and joined with a space, are their own trim. */
  lemma TrimmedJoin(lines: seq<string>, last: nat)
    requires last + 1 == |lines| && !AllSpace(lines[0]) && !AllSpace(lines[last])
    ensures Trim(Join(TrimAll(lines), " ")) == Join(TrimAll(lines), " ")
  {
    TrimAllEdges(lines, last);
    JoinUntrimmed(TrimAll(lines), " ", last);
  }

  /** A piece that is non-empty and has no whitespace at its edges. */
  predicate EdgePiece(s: string) {
    s != [] && !IsSpace(s[0]) && !IsSpace(s[|s| - 1])
  }

  lemma TrimEdgePiece(l: string)
    requires !AllSpace(l)
    ensures EdgePiece(Trim(l))
  {
    TrimEmptyIffAllSpace(l);
  }

  /** The first and last trimmed lines are such pieces. */
  lemma TrimAllEdges(lines: seq<string>, last: nat)
    requires last + 1 == |lines| && !AllSpace(lines[0]) && !AllSpace(lines[last])
    ensures last + 1 == |TrimAll(lines)|
    ensures EdgePiece(TrimAll(lines)[0]) && EdgePiece(TrimAll(lines)[last])
  {
    TrimEdgePiece(lines[0]);
    TrimEdgePiece(lines[last]);
  }

  /** A join whose first and last pieces have no whitespace at their edges. */
  lemma JoinUntrimmed(parts: seq<string>, sep: string, last: nat)
    requires last + 1 == |parts| && EdgePiece(parts[0]) && EdgePiece(parts[last])
    ensures Trim(Join(parts, sep)) == Join(parts, sep)
  {
    JoinStart(parts, sep);
    JoinEnd(parts, sep);
    TrimNoEdgeSpace(Join(parts, sep));
  }

  /** The key does not occur in `pre + key` before its end. */
  predicate KeyFirstAfter(pre: string, key: string) {
    forall k :: 0 <= k < |pre| ==> !(key <= (pre + key)[k..])
  }

  /** The occurrence of the key ending at `e` is the first one ending at
      `from` or later, and the reader matches after it. */
  predicate FirstEndFrom(y: string, key: string, from: nat, e: nat, rd: Reader) {
    && |key| <= from <= e && KeyEndsAt(y, key, e) && ReadAt(rd, y, e).Some?
    && forall k :: from <= k < e ==> !KeyEndsAt(y, key, k)
  }

  lemma FirstEndNext(y: string, key: string, from: nat, e: nat, rd: Reader)
    requires FirstEndFrom(y, key, from, e, rd) && from < e
    ensures from < |y| && !KeyEndsAt(y, key, from) && FirstEndFrom(y, key, from + 1, e, rd)
  {
  }

  /** The search settles on the first occurrence at which the reader matches:
      the one that ends at `e`. */
  lemma {:induction false} MatchAtFirst(y: string, key: string, from: nat, e: nat, rd: Reader)
    requires FirstEndFrom(y, key, from, e, rd)
    ensures MatchAt(y, key, from, rd) == Some(e)
    decreases e - from, 1
  {
    if from == e {
      MatchAtHere(y, key, e, rd);
    } else {
      MatchAtPast(y, key, from, e, rd);
    }
  }

  /** Before `e` the search moves past every position. */
  lemma {:induction false} MatchAtPast(y: string, key: string, from: nat, e: nat, rd: Reader)
    requires FirstEndFrom(y, key, from, e, rd) && from < e
    ensures MatchAt(y, key, from, rd) == Some(e)
    decreases e - from, 0
  {
    FirstEndNext(y, key, from, e, rd);
    MatchAtSkip(y, key, from, rd);
    MatchAtFirst(y, key, from + 1, e, rd);
  }

  lemma MatchAtSkip(y: string, key: string, e: nat, rd: Reader)
    requires |key| <= e < |y| && !KeyEndsAt(y, key, e)
    ensures MatchAt(y, key, e, rd) == MatchAt(y, key, e + 1, rd)
  {
  }

  lemma MatchAtHere(y: string, key: string, e: nat, rd: Reader)
    requires KeyEndsAt(y, key, e) && ReadAt(rd, y, e).Some?
    ensures MatchAt(y, key, e, rd) == Some(e)
  {
  }

  /** No occurrence of the key ends before the end of `pre + key`, whatever
      follows. */
  lemma KeyFirstIn(pre: string, key: string, rest: string, p: nat)
    requires KeyFirstAfter(pre, key) && p == |pre| + |key|
    ensures forall k :: |key| <= k < p ==> !KeyEndsAt(pre + key + rest, key, k)
  {
    var y := pre + key + rest;
    forall k | |key| <= k < p
      ensures !KeyEndsAt(y, key, k)
    {
      var s := k - |key|;
      assert y[s..s + |key|] == (pre + key)[s..s + |key|];
      assert y[s..][..|key|] == y[s..s + |key|];
      assert (pre + key)[s..][..|key|] == (pre + key)[s..s + |key|];
    }
  }

  /** The description search on a header where `description:` first occurs
      after `pre`, followed by whitespace, a first line, any number of indented
      lines and then an unindented rest: the value is the trimmed lines joined
      with one space. */
  lemma SearchContinued(pre: string, ws: string, l0: string, ls: seq<string>, t: string)
    requires KeyFirstAfter(pre, "description:")
    requires AllSpace(ws) && FirstLine(l0) && UnindentedRest(t)
    requires forall i :: 0 <= i < |ls| ==> IndentedLine(ls[i])
    ensures Search(pre + "description:" + (ws + l0 + Indented(ls) + t), "description:", Continued) ==
      Some(Join(TrimAll([l0] + ls), " "))
  {
    var key := "description:";
    var rest := ws + l0 + Indented(ls) + t;
    var y := pre + key + rest;
    var p := |pre| + |key|;
    assert y[p..] == rest;
    KeyAt(pre, key, rest, p);
    ContinuedRead(y, p, ws, l0, ls, t);
    KeyFirstIn(pre, key, rest, p);
    SearchFirst(y, key, p, Continued);
  }

  /** The search reads after the first occurrence of the key, when the
      reader matches there. */
  lemma SearchFirst(y: string, key: string, e: nat, rd: Reader)
    requires KeyEndsAt(y, key, e) && ReadAt(rd, y, e).Some?
    requires forall k :: |key| <= k < e ==> !KeyEndsAt(y, key, k)
    ensures Search(y, key, rd) == ReadAt(rd, y, e)
  {
    MatchAtFirst(y, key, |key|, e, rd);
  }

  /** The reader on the layout: the trimmed lines joined with one space. */
  lemma ContinuedRead(y: string, p: nat, ws: string, l0: string, ls: seq<string>, t: string)
    requires p <= |y| && y[p..] == ws + l0 + Indented(ls) + t
    requires AllSpace(ws) && FirstLine(l0) && UnindentedRest(t)
    requires forall i :: 0 <= i < |ls| ==> IndentedLine(ls[i])
    ensures ReadContinued(y, p) == Some(Join(TrimAll([l0] + ls), " "))
  {
    ContinuedCapture(y, p, ws, l0, ls, t);
    ContinuedText(l0, ls);
  }

  lemma KeyAt(pre: string, key: string, rest: string, p: nat)
    requires p == |pre| + |key|
    ensures KeyEndsAt(pre + key + rest, key, p)
  {
    var y := pre + key + rest;
    assert y[..|pre| + |key|] == pre + key;
    assert y[|pre|..|pre| + |key|] == (pre + key)[|pre|..] == key;
    assert y[|pre|..][..|key|] == y[|pre|..|pre| + |key|];
  }

  /** The same through the skill generator's `parseFrontmatter`: the header
      block `y` sits between the delimiters. */
  lemma SkillHeaderContinued(y: string, pre: string, ws: string, l0: string, ls: seq<string>, t: string, body: string)
    requires y == pre + "description:" + (ws + l0 + Indented(ls) + t)
    requires KeyFirstAfter(pre, "description:")
    requires AllSpace(ws) && FirstLine(l0) && UnindentedRest(t)
    requires forall i :: 0 <= i < |ls| ==> IndentedLine(ls[i])
    requires forall k :: 0 <= k < |y| ==> !Frontmatter.DocCloseAt(y + "\n---\n", k)
    ensures ParseSkillHeader("---\n" + y + "\n---\n" + body).0.description == Join(TrimAll([l0] + ls), " ")
  {
    Frontmatter.SplitDocsAssembled(y, body);
    SearchContinued(pre, ws, l0, ls, t);
  }

  // ---------------------------------------------------------------------------
  // The two `parseFrontmatter` functions

  /** The skill generator's header: `name` and `description`, both '' unless read. */
  datatype SkillHeader = SkillHeader(name: string, description: string)

  /** The agent generator's header: `description` ('' unless read), and `mode`
      and `model`, undefined unless read. */
  datatype AgentHeader = AgentHeader(description: string, mode: Option<string>, model: Option<string>)

  function OrEmpty(v: Option<string>): string {
    if v.Some? then v.value else ""
  }

  /** `parseFrontmatter` of the skill generator. */
  function ParseSkillHeader(content: string): (r: (SkillHeader, string))
    ensures Frontmatter.SplitDocs(content).None? ==> r == (SkillHeader("", ""), content)
    ensures Frontmatter.SplitDocs(content).Some? ==> r.1 == Frontmatter.SplitDocs(content).value.1
  {
    match Frontmatter.SplitDocs(content)
    case None => (SkillHeader("", ""), content)
    case Some((y, body)) =>
      (SkillHeader(OrEmpty(Search(y, "name:", LineValue)),
                   OrEmpty(Search(y, "description:", Continued))), body)
  }

  /** `parseFrontmatter` of the agent generator. */
  function AgentHeaderOf(y: string): AgentHeader {
    AgentHeader(OrEmpty(Search(y, "description:", Continued)),
                Search(y, "mode:", Word),
                Search(y, "model:", LineValue))
  }

  function ParseAgent(content: string): (AgentHeader, string) {
    match Frontmatter.SplitDocs(content)
    case None => (AgentHeader("", None, None), content)
    case Some((y, body)) => (AgentHeaderOf(y), body)
  }

  /** `parseFrontmatter` of the agent generator, field by field as the source
      fills its record: without a header, description '' and no mode or model,
      and the whole content as the body. */
  method ParseAgentHeader(content: string) returns (header: AgentHeader, body: string)
    ensures (header, body) == ParseAgent(content)
    ensures Frontmatter.SplitDocs(content).None? ==> header == AgentHeader("", None, None) && body == content
    ensures Frontmatter.SplitDocs(content).Some? ==>
      header == AgentHeaderOf(Frontmatter.SplitDocs(content).value.0) &&
      body == Frontmatter.SplitDocs(content).value.1
  {
    var parts := Frontmatter.SplitDocs(content);
    if parts.None? {
      return AgentHeader("", None, None), content;
    }
    var y := parts.value.0;
    body := parts.value.1;
    header := AgentHeader("", None, None);
    var description := Search(y, "description:", Continued);
    if description.Some? {
      header := header.(description := description.value);
    }
    var mode := Search(y, "mode:", Word);
    if mode.Some? {
      header := header.(mode := mode);
    }
    var model := Search(y, "model:", LineValue);
    if model.Some? {
      header := header.(model := model);
    }
  }
}
