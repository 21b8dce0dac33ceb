/**
 * String helpers with the semantics of the ECMAScript string methods the
 * build scripts use: `\s` / `trim()` whitespace, `toLowerCase()` and
 * `toUpperCase()` (on ASCII letters), `includes`, `startsWith`, `split`
 * on one character and `join`.
 */
module Text {

  /** The characters matched by `\s` and removed by `trim()` (WhiteSpace and LineTerminator). */
  predicate IsSpace(c: char) {
    || c == '\t' || c == '\n' || c == '\U{000B}' || c == '\U{000C}' || c == '\r' || c == ' '
    || c == '\U{00A0}' || c == '\U{1680}' || ('\U{2000}' <= c <= '\U{200A}')
    || c == '\U{2028}' || c == '\U{2029}' || c == '\U{202F}' || c == '\U{205F}'
    || c == '\U{3000}' || c == '\U{FEFF}'
  }

  /** The characters a regex `.` does not match (LineTerminator). */
  predicate IsLineTerminator(c: char) {
    c == '\n' || c == '\r' || c == '\U{2028}' || c == '\U{2029}'
  }

  predicate IsUpper(c: char) { 'A' <= c <= 'Z' }
  predicate IsLowerAscii(c: char) { 'a' <= c <= 'z' }
  predicate IsDigit(c: char) { '0' <= c <= '9' }

  /** `\w`: ASCII letters, digits and underscore. */
  predicate IsWordChar(c: char) { IsUpper(c) || IsLowerAscii(c) || IsDigit(c) || c == '_' }

  function LowerChar(c: char): (r: char)
    ensures IsUpper(c) ==> IsLowerAscii(r) && r as int == c as int + 32
    ensures !IsUpper(c) ==> r == c
    ensures !IsUpper(r)
  {
    if IsUpper(c) then (c as int + 32) as char else c
  }

  function UpperChar(c: char): (r: char)
    ensures IsLowerAscii(c) ==> IsUpper(r) && r as int == c as int - 32
    ensures !IsLowerAscii(c) ==> r == c
  {
    if IsLowerAscii(c) then (c as int - 32) as char else c
  }

  /** `toLowerCase()`, restricted to ASCII letters. */
  function Lower(s: string): (r: string)
    ensures |r| == |s|
    ensures forall i :: 0 <= i < |s| ==> r[i] == LowerChar(s[i])
  {
    seq(|s|, i requires 0 <= i < |s| => LowerChar(s[i]))
  }

  lemma LowerIdempotent(s: string)
    ensures Lower(Lower(s)) == Lower(s)
  {
  }

  lemma LowerSlice(s: string, i: nat, j: nat)
    requires i <= j <= |s|
    ensures Lower(s)[i..j] == Lower(s[i..j])
  {
  }

  lemma LowerConcat(a: string, b: string)
    ensures Lower(a + b) == Lower(a) + Lower(b)
  {
  }

  /** `s.includes(w)`. */
  predicate Contains(s: string, w: string) {
    exists i :: 0 <= i <= |s| && w <= s[i..]
  }

  /** Index of the first occurrence of `w` in `s`, if any. */
  function IndexOf(s: string, w: string): (r: Option<nat>)
    ensures r.Some? ==> r.value + |w| <= |s| && w <= s[r.value..]
    ensures r.Some? ==> forall k :: 0 <= k < r.value ==> !(w <= s[k..])
    ensures r.None? ==> forall k :: 0 <= k <= |s| ==> !(w <= s[k..])
    decreases |s|
  {
    if w <= s then assert s[0..] == s; Some(0)
    else if |s| == 0 then None
    else
      var rest := IndexOf(s[1..], w);
      ShiftSuffixes(s);
      if rest.None? then None else Some(rest.value + 1)
  }

  lemma ShiftSuffixes(s: string)
    requires |s| > 0
    ensures forall k :: 1 <= k <= |s| ==> s[k..] == s[1..][k - 1..]
  {
  }

  lemma IndexOfContains(s: string, w: string)
    ensures IndexOf(s, w).Some? <==> Contains(s, w)
  {
  }

  function TrimStart(s: string): (r: string)
    ensures |r| <= |s| && r == s[|s| - |r|..]
    ensures r == [] || !IsSpace(r[0])
    ensures forall i :: 0 <= i < |s| - |r| ==> IsSpace(s[i])
    decreases |s|
  {
    if |s| > 0 && IsSpace(s[0]) then TrimStart(s[1..]) else s
  }

  function TrimEnd(s: string): (r: string)
    ensures |r| <= |s| && r == s[..|r|]
    ensures r == [] || !IsSpace(r[|r| - 1])
    ensures forall i :: |r| <= i < |s| ==> IsSpace(s[i])
    decreases |s|
  {
    if |s| > 0 && IsSpace(s[|s| - 1]) then TrimEnd(s[..|s| - 1]) else s
  }

  /** `trim()`: the longest infix of `s` that neither starts nor ends with whitespace. */
  function Trim(s: string): (r: string)
    ensures r == [] || (!IsSpace(r[0]) && !IsSpace(r[|r| - 1]))
    ensures |r| <= |s|
  {
    TrimEnd(TrimStart(s))
  }

  predicate AllSpace(s: string) {
    forall i :: 0 <= i < |s| ==> IsSpace(s[i])
  }

  lemma {:induction false} TrimEmptyIffAllSpace(s: string)
    ensures Trim(s) == [] <==> AllSpace(s)
  {
    var t := TrimStart(s);
    if Trim(s) == [] {
      if t != [] {
        assert false;
      }
    } else {
      var c := Trim(s)[0];
      assert Trim(s) == t[..|Trim(s)|];
      assert t[0] == c && t[0] == s[|s| - |t|];
    }
  }

  /** The first index at or after `j` that holds `c`, or the end of `s`. */
  function NextIndex(s: string, j: nat, c: char): (e: nat)
    requires j <= |s|
    ensures j <= e <= |s| && (e == |s| || s[e] == c)
    ensures forall k :: j <= k < e ==> s[k] != c
    decreases |s| - j
  {
    if j == |s| || s[j] == c then j else NextIndex(s, j + 1, c)
  }

  lemma {:induction false} NextIndexIs(s: string, j: nat, c: char, e: nat)
    requires j <= e <= |s| && (e == |s| || s[e] == c)
    requires forall k :: j <= k < e ==> s[k] != c
    ensures NextIndex(s, j, c) == e
    decreases e - j
  {
    if j < e {
      NextIndexIs(s, j + 1, c, e);
    }
  }

  /** `s.split(d)` for a one-character separator `d`: never empty, no piece contains `d`. */
  function Split(s: string, d: char): (r: seq<string>)
    ensures |r| >= 1
    ensures forall k :: 0 <= k < |r| ==> d !in r[k]
    decreases |s|
  {
    if |s| == 0 then [""]
    else if s[0] == d then [""] + Split(s[1..], d)
    else
      var t := Split(s[1..], d);
      [[s[0]] + t[0]] + t[1..]
  }

  /** A string without the separator splits into itself alone. */
  lemma {:induction false} SplitNoSep(s: string, d: char)
    requires d !in s
    ensures Split(s, d) == [s]
    decreases |s|
  {
    if |s| > 0 {
      SplitNoSep(s[1..], d);
      assert [s[0]] + s[1..] == s;
    }
  }

  /** `parts.join(sep)`. */
  function Join(parts: seq<string>, sep: string): string
    decreases |parts|
  {
    if |parts| == 0 then ""
    else if |parts| == 1 then parts[0]
    else parts[0] + sep + Join(parts[1..], sep)
  }

  lemma {:induction false} JoinSplit(s: string, d: char)
    ensures Join(Split(s, d), [d]) == s
    decreases |s|
  {
    if |s| == 0 {
    } else if s[0] == d {
      JoinSplit(s[1..], d);
      assert s == [d] + s[1..];
    } else {
      var t := Split(s[1..], d);
      JoinSplit(s[1..], d);
      if |t| == 1 {
        assert s == [s[0]] + s[1..];
      } else {
        calc {
          Join(Split(s, d), [d]);
          ([s[0]] + t[0]) + [d] + Join(t[1..], [d]);
          [s[0]] + (t[0] + [d] + Join(t[1..], [d]));
          [s[0]] + Join(t, [d]);
          [s[0]] + s[1..];
          s;
        }
      }
    }
  }

  /** `path.basename(p)`: the last '/'-separated segment. */
  function Basename(p: string): (r: string)
    ensures '/' !in r
  {
    var parts := Split(p, '/');
    parts[|parts| - 1]
  }

  /** `path.dirname(p)`: everything before the last '/', or "." when there is none. */
  function Dirname(p: string): string {
    var parts := Split(p, '/');
    if |parts| == 1 then "." else Join(parts[..|parts| - 1], "/")
  }

  /** Decimal text of a natural number, as `${n}` renders it. */
  function NatToString(n: nat): (r: string)
    ensures |r| >= 1
    ensures forall i :: 0 <= i < |r| ==> IsDigit(r[i])
    decreases n
  {
    var digit := [('0' as int + n % 10) as char];
    if n < 10 then digit else NatToString(n / 10) + digit
  }

  datatype Option<+T> = None | Some(value: T)
}
