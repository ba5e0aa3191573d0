/** The few JavaScript string operations the generator relies on, over `string` (= seq<char>). */
module JsStrings {

  datatype Option<+T> = None | Some(value: T)

  /** What a template literal `${v}` renders: the string itself, or `undefined` when the field is absent. */
  function Interpolate(v: Option<string>): string
  {
    match v
    case Some(s) => s
    case None => "undefined"
  }

  /** JavaScript truthiness of an optional string: present and not empty. */
  predicate Truthy(v: Option<string>)
  {
    v.Some? && v.value != ""
  }

  predicate EndsWith(s: string, suffix: string)
  {
    |suffix| <= |s| && s[|s| - |suffix|..] == suffix
  }

  /** `s.split(sep).pop()`: the text after the last separator, or all of `s` when it has none. */
  function LastSegment(s: string, sep: char): string
  {
    if s == [] then []
    else if s[|s| - 1] == sep then []
    else LastSegment(s[..|s| - 1], sep) + [s[|s| - 1]]
  }

  /** The last segment is a suffix without the separator, preceded by the separator unless it is all of `s`. */
  lemma {:induction false} LastSegmentIsSuffix(s: string, sep: char)
    ensures var r := LastSegment(s, sep);
      EndsWith(s, r) && sep !in r && (|r| < |s| ==> s[|s| - |r| - 1] == sep)
  {
    if s != [] && s[|s| - 1] != sep {
      var n := |s| - 1;
      LastSegmentIsSuffix(s[..n], sep);
      var r0 := LastSegment(s[..n], sep);
      var r := r0 + [s[n]];
      assert s[|s| - |r|..] == s[..n][n - |r0|..] + [s[n]];
    }
  }

  /** The last segment of `prefix + [sep] + tail` is `tail` when `tail` holds no separator. */
  lemma {:induction false} LastSegmentAfterSeparator(prefix: string, sep: char, tail: string)
    requires sep !in tail
    ensures LastSegment(prefix + [sep] + tail, sep) == tail
  {
    var s := prefix + [sep] + tail;
    if tail != [] {
      var init := tail[..|tail| - 1];
      assert tail[|tail| - 1] in tail;
      assert s[..|s| - 1] == prefix + [sep] + init;
      LastSegmentAfterSeparator(prefix, sep, init);
      assert init + [tail[|tail| - 1]] == tail;
    }
  }

  /** A string without the separator is its own last segment. */
  lemma {:induction false} LastSegmentWhole(s: string, sep: char)
    requires sep !in s
    ensures LastSegment(s, sep) == s
  {
    if s != [] {
      var n := |s| - 1;
      assert s[n] in s;
      assert s[..n] + [s[n]] == s;
      LastSegmentWhole(s[..n], sep);
    }
  }

  /** ASCII lower-casing of one character, as `toLowerCase` does for A-Z. */
  function LowerChar(c: char): char
  {
    if 'A' <= c <= 'Z' then (c as int + 32) as char else c
  }

  /** `toLowerCase`, restricted to ASCII. */
  function ToLower(s: string): string
  {
    seq(|s|, i requires 0 <= i < |s| => LowerChar(s[i]))
  }

  /** `pat` occurs in `s` starting at index `i`. */
  predicate OccursAt(s: string, pat: string, i: nat)
  {
    i + |pat| <= |s| && s[i..i + |pat|] == pat
  }

  /** `s.indexOf(pat, from)`, with None for -1. */
  function IndexFrom(s: string, pat: string, from: nat): (r: Option<nat>)
    decreases |s| - from
    ensures r.Some? ==> from <= r.value && OccursAt(s, pat, r.value)
    ensures forall j :: from <= j && (r.None? || j < r.value) ==> !OccursAt(s, pat, j)
  {
    if |s| < from + |pat| then None
    else if s[from..from + |pat|] == pat then Some(from)
    else IndexFrom(s, pat, from + 1)
  }

  /** `s.indexOf(pat)`: the first index at which `pat` occurs. */
  function IndexOf(s: string, pat: string): Option<nat>
  {
    IndexFrom(s, pat, 0)
  }

  /** `s.replace(pat, rep)` with a string pattern: only the first occurrence is rewritten. */
  function ReplaceFirst(s: string, pat: string, rep: string): string
  {
    match IndexOf(s, pat)
    case None => s
    case Some(i) => s[..i] + rep + s[i + |pat|..]
  }

  /**
   * What `replace` does and does not touch: with no occurrence the string is unchanged; otherwise the
   * text before the first occurrence holds none, the occurrence becomes `rep`, and every later
   * occurrence of `pat` survives, shifted by the change in length.
   */
  lemma ReplaceFirstOnlyFirst(s: string, pat: string, rep: string)
    ensures IndexOf(s, pat).None? ==> ReplaceFirst(s, pat, rep) == s
    ensures IndexOf(s, pat).Some? ==>
      var i := IndexOf(s, pat).value;
      var r := ReplaceFirst(s, pat, rep);
      && (forall j :: 0 <= j < i ==> !OccursAt(s, pat, j))
      && r[..i] == s[..i]
      && r[i..i + |rep|] == rep
      && r[i + |rep|..] == s[i + |pat|..]
      && (forall j :: i + |pat| <= j ==> OccursAt(s, pat, j) ==> OccursAt(r, pat, j - |pat| + |rep|))
  {
    if IndexOf(s, pat).Some? {
      var i := IndexOf(s, pat).value;
      var r := ReplaceFirst(s, pat, rep);
      var tail := s[i + |pat|..];
      assert r == s[..i] + rep + tail;
      assert r[i + |rep|..] == tail;
      forall j | i + |pat| <= j && OccursAt(s, pat, j)
        ensures OccursAt(r, pat, j - |pat| + |rep|)
      {
        var k := j - |pat| + |rep|;
        assert r[k..k + |pat|] == tail[j - i - |pat|..j - i] == s[j..j + |pat|];
      }
    }
  }
}
