/** The .NET string operations the supervisor and the mining processor rely on:
    white-space trimming, ordinal substring search, and an ASCII case fold standing in
    for the culture-aware case-insensitive comparisons. */
module Text {
  import opened Wrappers

  /** `char.IsWhiteSpace`: the Unicode space separators, the line and paragraph
      separators, and the control characters U+0009..U+000D and U+0085. */
  predicate IsWhiteSpace(c: char) {
    || c == ' ' || ('\t' <= c <= '\r') || c == '\U{85}' || c == '\U{A0}' || c == '\U{1680}'
    || ('\U{2000}' <= c <= '\U{200A}') || c == '\U{2028}' || c == '\U{2029}'
    || c == '\U{202F}' || c == '\U{205F}' || c == '\U{3000}'
  }

  /** Every character of `s` is white space (the empty string included). */
  predicate IsBlank(s: string) {
    forall i :: 0 <= i < |s| ==> IsWhiteSpace(s[i])
  }

  /** `String.TrimStart()`: drops the leading white space and nothing else. */
  function TrimStart(s: string): (r: string)
    ensures |r| <= |s| && r == s[|s| - |r|..]
    ensures r == [] || !IsWhiteSpace(r[0])
    ensures IsBlank(s[..|s| - |r|])
  {
    if |s| > 0 && IsWhiteSpace(s[0]) then
      var t := TrimStart(s[1..]);
      assert s[..|s| - |t|] == [s[0]] + s[1..][..|s[1..]| - |t|];
      t
    else s
  }

  /** `String.TrimEnd()`: drops the trailing white space and nothing else. */
  function TrimEnd(s: string): (r: string)
    ensures |r| <= |s| && r == s[..|r|]
    ensures r == [] || !IsWhiteSpace(r[|r| - 1])
    ensures IsBlank(s[|r|..])
  {
    if |s| > 0 && IsWhiteSpace(s[|s| - 1]) then
      var t := TrimEnd(s[..|s| - 1]);
      assert s[|t|..] == s[..|s| - 1][|t|..] + [s[|s| - 1]];
      t
    else s
  }

  /** `String.Trim()`. */
  function Trim(s: string): string {
    TrimEnd(TrimStart(s))
  }

  /** `!string.IsNullOrEmpty(s.Trim())` for a non-null `s`: the line has visible content. */
  predicate HasContent(s: string) {
    Trim(s) != ""
  }

  /** A line has content exactly when some character of it is not white space. */
  lemma HasContentIffNotBlank(s: string)
    ensures HasContent(s) <==> !IsBlank(s)
  {
    var a := TrimStart(s);
    var b := TrimEnd(a);
    if b == [] {
      // `a` is all white space, and TrimStart leaves no leading white space, so `a` is empty
      assert a[|b|..] == a;
      assert a == [];
      assert s[..|s| - |a|] == s;
    } else {
      assert b[0] == a[0];
      assert !IsWhiteSpace(s[|s| - |a|]);
    }
  }

  /** `needle` occurs in `haystack` starting at index `i`. */
  predicate OccursAt(haystack: string, needle: string, i: nat) {
    i + |needle| <= |haystack| && haystack[i..i + |needle|] == needle
  }

  /** Ordinal substring test, the model of `StringUtility.Contains` without `IgnoreCase`. */
  predicate Contains(haystack: string, needle: string) {
    exists i: nat | i <= |haystack| :: OccursAt(haystack, needle, i)
  }

  /** `String.IndexOf(string)`: the first occurrence of `needle`, or none. */
  function IndexOf(haystack: string, needle: string): (r: Option<nat>)
    ensures r.Some? ==> OccursAt(haystack, needle, r.value)
    ensures r.Some? ==> forall j: nat :: j < r.value ==> !OccursAt(haystack, needle, j)
    ensures r.None? <==> !Contains(haystack, needle)
  {
    IndexFrom(haystack, needle, 0)
  }

  function IndexFrom(haystack: string, needle: string, k: nat): (r: Option<nat>)
    requires forall j: nat :: j < k ==> !OccursAt(haystack, needle, j)
    ensures r.Some? ==> k <= r.value && OccursAt(haystack, needle, r.value)
    ensures r.Some? ==> forall j: nat :: j < r.value ==> !OccursAt(haystack, needle, j)
    ensures r.None? <==> !Contains(haystack, needle)
    decreases |haystack| - k
  {
    if k + |needle| > |haystack| then
      assert forall j: nat :: OccursAt(haystack, needle, j) ==> j < k;
      None
    else if haystack[k..k + |needle|] == needle then
      assert OccursAt(haystack, needle, k);
      Some(k)
    else IndexFrom(haystack, needle, k + 1)
  }

  /** `String.LastIndexOf(char, startIndex)`: the last `c` at or before `from`. */
  function LastIndexOfChar(s: string, c: char, from: nat): (r: Option<nat>)
    requires from < |s|
    ensures r.Some? ==> r.value <= from && s[r.value] == c
    ensures r.Some? ==> forall j :: r.value < j <= from ==> s[j] != c
    ensures r.None? ==> forall j :: 0 <= j <= from ==> s[j] != c
    decreases from
  {
    if s[from] == c then Some(from)
    else if from == 0 then None
    else LastIndexOfChar(s, c, from - 1)
  }

  /** Lower-cases the ASCII letters and leaves every other character alone. */
  function FoldChar(c: char): char {
    if 'A' <= c <= 'Z' then (c as int - 'A' as int + 'a' as int) as char else c
  }

  /** The ASCII case fold of a string, character by character. */
  function Fold(s: string): (r: string)
    ensures |r| == |s|
    ensures forall i :: 0 <= i < |s| ==> r[i] == FoldChar(s[i])
  {
    seq(|s|, i requires 0 <= i < |s| => FoldChar(s[i]))
  }

  /** `StringUtility.Contains(..., CompareOptions.IgnoreCase)`, with case folding limited to ASCII. */
  predicate ContainsIgnoreCase(haystack: string, needle: string) {
    Contains(Fold(haystack), Fold(needle))
  }

  /** `String.Equals(..., InvariantCultureIgnoreCase)`, with case folding limited to ASCII. */
  predicate EqualsIgnoreCase(a: string, b: string) {
    Fold(a) == Fold(b)
  }

  /** Containment is transitive: whatever occurs in a piece of a string occurs in the string. */
  lemma {:induction false} ContainsTransitive(a: string, b: string, c: string)
    requires Contains(a, b) && Contains(b, c)
    ensures Contains(a, c)
  {
    var i: nat :| i <= |a| && OccursAt(a, b, i);
    var j: nat :| j <= |b| && OccursAt(b, c, j);
    assert i + |b| <= |a| && a[i..i + |b|] == b;
    assert j + |c| <= |b| && b[j..j + |c|] == c;
    forall k | 0 <= k < |c| ensures a[i + j + k] == c[k] {
      assert b[j + k] == c[k];
      assert a[i + (j + k)] == b[j + k];
    }
    assert a[i + j..i + j + |c|] == c;
    assert OccursAt(a, c, i + j);
  }

  /** Folding distributes over slices. */
  lemma FoldSlice(s: string, i: nat, j: nat)
    requires i <= j <= |s|
    ensures Fold(s)[i..j] == Fold(s[i..j])
  {
  }

  /** Case-insensitive containment is transitive too. */
  lemma {:induction false} ContainsIgnoreCaseTransitive(a: string, b: string, c: string)
    requires ContainsIgnoreCase(a, b) && ContainsIgnoreCase(b, c)
    ensures ContainsIgnoreCase(a, c)
  {
    ContainsTransitive(Fold(a), Fold(b), Fold(c));
  }
}
