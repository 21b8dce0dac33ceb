/**
 * The two header-splitting regular expressions of the pipeline, modelled as
 * explicit scans with the regex engine's outcome: the lazy group stops at the
 * FIRST closing delimiter, and a greedy optional takes its character when it
 * is there.
 */
module Frontmatter {
  import opened Text

  /** The pieces of a document matched by `^---\r?\n([\s\S]*?)\r?\n---\r?\n?([\s\S]*)$`. */
  datatype Parts = Parts(open: string, yaml: string, close: string, sep: string, body: string)

  predicate DashesAt(t: string, i: nat) {
    i + 3 <= |t| && t[i] == '-' && t[i + 1] == '-' && t[i + 2] == '-'
  }

  /** Length of the opening delimiter `---\r?\n` at the start of `c`, or 0. */
  function OpenLen(c: string): (n: nat)
    ensures n == 0 || n == 4 || n == 5
    ensures n <= |c|
  {
    if DashesAt(c, 0) && 5 <= |c| && c[3] == '\r' && c[4] == '\n' then 5
    else if DashesAt(c, 0) && 4 <= |c| && c[3] == '\n' then 4
    else 0
  }

  /** Length of the closing delimiter `\r?\n---` starting at index `k` of `t`, or 0. */
  function CloseLenAt(t: string, k: nat): (n: nat)
    ensures n == 0 || n == 4 || n == 5
    ensures n > 0 ==> k + n <= |t|
  {
    if k + 5 <= |t| && t[k] == '\r' && t[k + 1] == '\n' && DashesAt(t, k + 2) then 5
    else if k + 4 <= |t| && t[k] == '\n' && DashesAt(t, k + 1) then 4
    else 0
  }

  /** The first index at or after `p` where a closing delimiter starts. */
  function FindClose(t: string, p: nat): (r: Option<nat>)
    requires p <= |t|
    ensures r.Some? ==> p <= r.value <= |t| && CloseLenAt(t, r.value) > 0
    ensures r.Some? ==> forall k :: p <= k < r.value ==> CloseLenAt(t, k) == 0
    ensures r.None? ==> forall k :: p <= k <= |t| ==> CloseLenAt(t, k) == 0
    decreases |t| - p
  {
    if CloseLenAt(t, p) > 0 then Some(p)
    else if p == |t| then None
    else FindClose(t, p + 1)
  }

  /** The header split shared by the agent converter and the skill converter; the
      config builder's regex stops after the closing `---`, which leaves the
      header block (`yaml`) the same. */
  function SplitHeader(c: string): (r: Option<Parts>)
    ensures r.None? <==> OpenLen(c) == 0 || FindClose(c, OpenLen(c)).None?
    ensures r.Some? ==> c == r.value.open + r.value.yaml + r.value.close + r.value.sep + r.value.body
    ensures r.Some? ==> |r.value.open| == OpenLen(c) && |r.value.close| == CloseLenAt(c, OpenLen(c) + |r.value.yaml|)
    ensures r.Some? ==> forall k :: OpenLen(c) <= k < OpenLen(c) + |r.value.yaml| ==> CloseLenAt(c, k) == 0
    ensures r.Some? ==> |r.value.sep| <= 2
  {
    var o := OpenLen(c);
    if o == 0 then None
    else
      var q := FindClose(c, o);
      if q.None? then None
      else
        var p := q.value;
        var e := p + CloseLenAt(c, p);
        var cr := if e < |c| && c[e] == '\r' then 1 else 0;
        var lf := if e + cr < |c| && c[e + cr] == '\n' then 1 else 0;
        var s := e + cr + lf;
        var parts := PartsAt(c, o, p, e, s);
        assert o + |parts.yaml| == p;
        Some(parts)
  }

  /** The text cut at four ordered points; gluing the pieces gives it back. */
  function PartsAt(c: string, o: nat, p: nat, e: nat, s: nat): (r: Parts)
    requires o <= p <= e <= s <= |c|
    ensures c == r.open + r.yaml + r.close + r.sep + r.body
    ensures |r.open| == o && |r.yaml| == p - o && |r.close| == e - p && |r.sep| == s - e
  {
    assert c[..o] + c[o..p] == c[..p];
    assert c[..p] + c[p..e] == c[..e];
    assert c[..e] + c[e..s] == c[..s];
    Parts(c[..o], c[o..p], c[p..e], c[e..s], c[s..])
  }

  /** No line of `y` after its first starts with `---`. */
  predicate NoDashLine(y: string) {
    forall k :: 0 <= k < |y| ==> !(y[k] == '\n' && DashesAt(y, k + 1))
  }

  /** Extract-then-assemble round trip: a document written as `---`, a header
      block none of whose lines starts with `---`, `---` and a body, splits back
      into exactly that header block and body. */
  lemma SplitHeaderAssembled(y: string, b: string)
    requires NoDashLine(y)
    requires y == [] || y[|y| - 1] != '\r'
    ensures SplitHeader("---\n" + y + "\n---\n" + b).Some?
    ensures SplitHeader("---\n" + y + "\n---\n" + b).value.yaml == y
    ensures SplitHeader("---\n" + y + "\n---\n" + b).value.body == b
  {
    var c := "---\n" + y + "\n---\n" + b;
    var n := |y|;
    AssembledLayout(y, b);
    NoCloseInside(y, b);
    assert CloseLenAt(c, 4 + n) == 4;
    assert FindClose(c, 4) == Some(4 + n);
    var r := SplitHeader(c).value;
    assert |r.open| == 4 && |r.yaml| == n && |r.close| == 4 && |r.sep| == 1;
    assert r.yaml == c[4..4 + n];
    assert r.body == c[9 + n..];
  }

  lemma AssembledLayout(y: string, b: string)
    ensures var c := "---\n" + y + "\n---\n" + b;
      (forall k :: 0 <= k < |y| ==> c[4 + k] == y[k]) &&
      c[4 + |y|] == '\n' && DashesAt(c, 5 + |y|) && c[8 + |y|] == '\n' &&
      OpenLen(c) == 4 && c[4..4 + |y|] == y && c[9 + |y|..] == b
  {
  }

  /** No closing delimiter starts inside the header block. */
  lemma NoCloseInside(y: string, b: string)
    requires NoDashLine(y)
    requires y == [] || y[|y| - 1] != '\r'
    ensures forall k :: 4 <= k < 4 + |y| ==> CloseLenAt("---\n" + y + "\n---\n" + b, k) == 0
  {
    var c := "---\n" + y + "\n---\n" + b;
    var n := |y|;
    AssembledLayout(y, b);
    forall k | 4 <= k < 4 + n ensures CloseLenAt(c, k) == 0 {
      if c[k] == '\n' {
        assert y[k - 4] == '\n';
        if k + 4 <= 4 + n {
          assert !DashesAt(y, k - 3);
        }
      } else if c[k] == '\r' && k + 1 < 4 + n {
        assert y[k - 3] == c[k + 1];
      }
    }
  }

  /** `\n---\n` starts at index `k` of `t`. */
  predicate DocCloseAt(t: string, k: nat) {
    k + 5 <= |t| && t[k] == '\n' && DashesAt(t, k + 1) && t[k + 4] == '\n'
  }

  function FindDocClose(t: string, p: nat): (r: Option<nat>)
    requires p <= |t|
    ensures r.Some? ==> p <= r.value && DocCloseAt(t, r.value)
    ensures r.Some? ==> forall k :: p <= k < r.value ==> !DocCloseAt(t, k)
    ensures r.None? ==> forall k :: p <= k <= |t| ==> !DocCloseAt(t, k)
    decreases |t| - p
  {
    if DocCloseAt(t, p) then Some(p)
    else if p == |t| then None
    else FindDocClose(t, p + 1)
  }

  /** The documentation generators' split, `^---\n([\s\S]*?)\n---\n([\s\S]*)$`:
      the header block ends at the first `\n---\n`. */
  function SplitDocs(c: string): (r: Option<(string, string)>)
    ensures r.None? <==> OpenLen(c) != 4 || FindDocClose(c, 4).None?
    ensures r.Some? ==> c == "---\n" + r.value.0 + "\n---\n" + r.value.1
    ensures r.Some? ==> forall k :: 4 <= k < 4 + |r.value.0| ==> !DocCloseAt(c, k)
  {
    if OpenLen(c) != 4 then None
    else
      var q := FindDocClose(c, 4);
      if q.None? then None
      else
        var p := q.value;
        assert c[..4] == "---\n";
        assert c[p..p + 5] == "\n---\n";
        assert c == c[..4] + c[4..p] + c[p..p + 5] + c[p + 5..];
        Some((c[4..p], c[p + 5..]))
  }

  /** Converse round trip for the generators' split: the header block followed by
      the closing delimiter contains that delimiter only at its end. */
  lemma SplitDocsAssembled(y: string, b: string)
    requires forall k :: 0 <= k < |y| ==> !DocCloseAt(y + "\n---\n", k)
    ensures SplitDocs("---\n" + y + "\n---\n" + b) == Some((y, b))
  {
    var c := "---\n" + y + "\n---\n" + b;
    var n := |y|;
    assert forall k :: 0 <= k < n ==> c[4 + k] == y[k];
    assert c[4 + n] == '\n' && c[5 + n] == '-' && c[6 + n] == '-' && c[7 + n] == '-' && c[8 + n] == '\n';
    assert OpenLen(c) == 4;
    var u := y + "\n---\n";
    assert forall k :: 0 <= k < n + 5 ==> c[4 + k] == u[k];
    forall k | 4 <= k < 4 + n ensures !DocCloseAt(c, k) {
      if DocCloseAt(c, k) {
        assert DocCloseAt(u, k - 4);
      }
    }
    assert DocCloseAt(c, 4 + n);
    assert FindDocClose(c, 4) == Some(4 + n);
    assert c[4..4 + n] == y;
    assert c[9 + n..] == b;
  }
}
