/**
 * The string primitives the Go and TypeScript code relies on: whitespace
 * trimming, prefix and substring tests, splitting on one separator
 * character, ASCII lower-casing, and the byte-wise order used by sorting.
 */
module GoStrings {
  import opened Wrappers

  /** Go's unicode.IsSpace. */
  predicate IsSpace(c: char) {
    c == ' ' || c == '\t' || c == '\n' || c == '\r' || c == '\U{B}' || c == '\U{C}'
    || c == '\U{85}' || c == '\U{A0}' || c == '\U{1680}'
    || ('\U{2000}' <= c <= '\U{200A}')
    || c == '\U{2028}' || c == '\U{2029}' || c == '\U{202F}' || c == '\U{205F}' || c == '\U{3000}'
  }

  /** The white space removed by JavaScript's String.prototype.trim. */
  predicate IsJsSpace(c: char) {
    (IsSpace(c) && c != '\U{85}') || c == '\U{FEFF}'
  }

  predicate AllSpace(s: string) {
    forall i :: 0 <= i < |s| ==> IsSpace(s[i])
  }

  /** s has no white space at either end (a fixed point of TrimSpace). */
  predicate Trimmed(s: string) {
    s == [] || (!IsSpace(s[0]) && !IsSpace(s[|s| - 1]))
  }

  /** The index of the first character of s at or after i that is not white space; |s| when there is none. */
  function SkipSpace(s: string, i: nat): (n: nat)
    requires i <= |s|
    ensures i <= n <= |s|
    ensures forall j :: i <= j < n ==> IsSpace(s[j])
    ensures n < |s| ==> !IsSpace(s[n])
    decreases |s| - i
  {
    if i == |s| || !IsSpace(s[i]) then i else SkipSpace(s, i + 1)
  }

  /** The index just past the last character of s before i that is not white space; 0 when there is none. */
  function SkipSpaceBack(s: string, i: nat): (n: nat)
    requires i <= |s|
    ensures n <= i
    ensures forall j :: n <= j < i ==> IsSpace(s[j])
    ensures 0 < n ==> !IsSpace(s[n - 1])
  {
    if i == 0 || !IsSpace(s[i - 1]) then i else SkipSpaceBack(s, i - 1)
  }

  /** Go's strings.TrimSpace: s without the white space at its two ends. */
  function TrimSpace(s: string): (r: string)
    ensures Trimmed(r)
    ensures r == [] <==> AllSpace(s)
    ensures Trimmed(s) ==> r == s
  {
    var a := SkipSpace(s, 0);
    if a == |s| then []
    else
      s[a..SkipSpaceBack(s, |s|)]
  }

  /** True when s is empty after trimming (the repository's IsEmptyStr and `TrimSpace(x) == ""`). */
  predicate IsBlank(s: string) {
    AllSpace(s)
  }

  lemma BlankIsEmptyAfterTrim(s: string)
    ensures IsBlank(s) <==> TrimSpace(s) == ""
  {
  }

  /** Every character is white space to JavaScript's trim. */
  predicate JsBlank(s: string) {
    forall i :: 0 <= i < |s| ==> IsJsSpace(s[i])
  }

  /** The index of the first character of s at or after i that JavaScript's trim keeps; |s| when there is none. */
  function JsSkipSpace(s: string, i: nat): (n: nat)
    requires i <= |s|
    ensures i <= n <= |s|
    ensures forall j :: i <= j < n ==> IsJsSpace(s[j])
    ensures n < |s| ==> !IsJsSpace(s[n])
    decreases |s| - i
  {
    if i == |s| || !IsJsSpace(s[i]) then i else JsSkipSpace(s, i + 1)
  }

  /** The index just past the last character of s before i that JavaScript's trim keeps; 0 when there is none. */
  function JsSkipSpaceBack(s: string, i: nat): (n: nat)
    requires i <= |s|
    ensures n <= i
    ensures forall j :: n <= j < i ==> IsJsSpace(s[j])
    ensures 0 < n ==> !IsJsSpace(s[n - 1])
  {
    if i == 0 || !IsJsSpace(s[i - 1]) then i else JsSkipSpaceBack(s, i - 1)
  }

  /** JavaScript's String.prototype.trim: a substring with no white space at either end, empty exactly for a blank string. */
  function JsTrim(s: string): (r: string)
    ensures r == [] <==> JsBlank(s)
    ensures r == [] || (!IsJsSpace(r[0]) && !IsJsSpace(r[|r| - 1]))
    ensures Contains(s, r)
    ensures s == [] || (!IsJsSpace(s[0]) && !IsJsSpace(s[|s| - 1])) ==> r == s
  {
    var a := JsSkipSpace(s, 0);
    if a == |s| then
      assert OccursAt(s, [], 0);
      []
    else
      var b := JsSkipSpaceBack(s, |s|);
      assert OccursAt(s, s[a..b], a);
      s[a..b]
  }

  /** A string with no white space at its ends is blank only when it is empty. */
  lemma TrimmedBlankIsEmpty(t: string)
    requires Trimmed(t)
    ensures IsBlank(t) <==> t == ""
  {
    if t != "" {
      assert !IsSpace(t[0]);
    }
  }

  predicate HasPrefix(s: string, p: string) {
    |p| <= |s| && s[..|p|] == p
  }

  predicate HasSuffix(s: string, p: string) {
    |p| <= |s| && s[|s| - |p|..] == p
  }

  /** Go's strings.TrimPrefix. */
  function TrimPrefix(s: string, p: string): (r: string)
    ensures HasPrefix(s, p) ==> p + r == s
    ensures !HasPrefix(s, p) ==> r == s
  {
    if HasPrefix(s, p) then s[|p|..] else s
  }

  /** Go's strings.TrimSuffix. */
  function TrimSuffix(s: string, p: string): (r: string)
    ensures HasSuffix(s, p) ==> r + p == s
    ensures !HasSuffix(s, p) ==> r == s
  {
    if HasSuffix(s, p) then s[..|s| - |p|] else s
  }

  /** Go's strings.Contains. */
  predicate Contains(s: string, sub: string) {
    exists i :: 0 <= i <= |s| - |sub| && OccursAt(s, sub, i)
  }

  predicate OccursAt(s: string, sub: string, i: nat) {
    i + |sub| <= |s| && s[i..i + |sub|] == sub
  }

  /** Position of the first occurrence of c in s (strings.Index with a one-character separator). */
  function IndexOf(s: string, c: char): (r: Option<nat>)
    ensures r.None? <==> c !in s
    ensures r.Some? ==> r.value < |s| && s[r.value] == c && c !in s[..r.value]
  {
    if s == [] then None
    else if s[0] == c then Some(0)
    else match IndexOf(s[1..], c)
      case None => None
      case Some(i) =>
        assert s[1..][..i] == s[1..i + 1];
        Some(i + 1)
  }

  /** Go's strings.SplitN(s, [c], 2): the whole string, or the parts around the first c. */
  function SplitFirst(s: string, c: char): (r: seq<string>)
    ensures |r| == 1 <==> c !in s
    ensures |r| == 1 || |r| == 2
    ensures |r| == 1 ==> r[0] == s
    ensures |r| == 2 ==> r[0] + [c] + r[1] == s && c !in r[0]
  {
    match IndexOf(s, c)
      case None => [s]
      case Some(i) =>
        assert s[..i] + [c] + s[i + 1..] == s;
        [s[..i], s[i + 1..]]
  }

  /** The first c of a + [c] + b is the one after a, when a holds none. */
  lemma {:induction false} IndexOfAfter(a: string, b: string, c: char)
    requires c !in a
    ensures IndexOf(a + [c] + b, c) == Some(|a|)
    ensures SplitFirst(a + [c] + b, c) == [a, b]
  {
    var s := a + [c] + b;
    if a != [] {
      assert s[1..] == a[1..] + [c] + b;
      IndexOfAfter(a[1..], b, c);
    }
    assert s[..|a|] == a && s[|a| + 1..] == b;
  }

  /** Go's strings.Split(s, [c]): every part between occurrences of c. */
  function Split(s: string, c: char): (r: seq<string>)
    ensures |r| >= 1
    ensures forall k :: 0 <= k < |r| ==> c !in r[k]
    decreases |s|
  {
    match IndexOf(s, c)
      case None => [s]
      case Some(i) => [s[..i]] + Split(s[i + 1..], c)
  }

  /** Go's strings.Join(parts, [c]). */
  function Join(parts: seq<string>, c: char): string
    requires |parts| >= 1
  {
    if |parts| == 1 then parts[0] else parts[0] + [c] + Join(parts[1..], c)
  }

  /** Joining the parts of a split with the same separator gives back the original string. */
  lemma {:induction false} JoinSplit(s: string, c: char)
    ensures Join(Split(s, c), c) == s
    decreases |s|
  {
    match IndexOf(s, c)
      case None =>
      case Some(i) =>
        var rest := Split(s[i + 1..], c);
        assert Split(s, c) == [s[..i]] + rest;
        JoinSplit(s[i + 1..], c);
        assert ([s[..i]] + rest)[1..] == rest;
        assert Join(Split(s, c), c) == s[..i] + [c] + Join(rest, c);
        assert s[..i] + [c] + s[i + 1..] == s;
  }

  function LowerChar(c: char): (r: char)
    ensures 'A' <= c <= 'Z' ==> 'a' <= r <= 'z' && r as int == c as int + 32
    ensures !('A' <= c <= 'Z') ==> r == c
  {
    if 'A' <= c <= 'Z' then (c as int + 32) as char else c
  }

  /**
   * Lower-casing of ASCII letters only, as a JavaScript regular expression
   * with the i flag compares ASCII text.
   */
  function ToLower(s: string): (r: string)
    ensures |r| == |s|
    ensures forall i :: 0 <= i < |s| ==> r[i] == LowerChar(s[i])
  {
    if s == [] then [] else [LowerChar(s[0])] + ToLower(s[1..])
  }

  /**
   * unicode.ToLower, as far as a comparison with ASCII text can tell: the
   * letters A to Z, U+0130 (capital I with dot above) and U+212A (the Kelvin
   * sign) are the only characters whose lower case is ASCII; every other
   * character is kept, and the lower case Go gives it is not ASCII either.
   */
  function GoLowerChar(c: char): (r: char)
    ensures c as int < 128 ==> r == LowerChar(c)
    ensures c == '\U{0130}' ==> r == 'i'
    ensures c == '\U{212A}' ==> r == 'k'
    ensures (r as int < 128) <==> (c as int < 128 || c == '\U{0130}' || c == '\U{212A}')
    ensures !('A' <= r <= 'Z')
  {
    if 'A' <= c <= 'Z' then LowerChar(c)
    else if c == '\U{0130}' then 'i'
    else if c == '\U{212A}' then 'k'
    else c
  }

  /** Go's strings.ToLower, character by character. */
  function GoToLower(s: string): (r: string)
    ensures |r| == |s|
    ensures forall i :: 0 <= i < |s| ==> r[i] == GoLowerChar(s[i])
  {
    if s == [] then [] else [GoLowerChar(s[0])] + GoToLower(s[1..])
  }

  /** Lower-casing twice is lower-casing once; text without upper-case letters is its own lower case. */
  lemma GoToLowerIdempotent(s: string)
    ensures GoToLower(GoToLower(s)) == GoToLower(s)
    ensures (forall i :: 0 <= i < |s| ==> s[i] as int < 128 && !('A' <= s[i] <= 'Z')) ==> GoToLower(s) == s
  {
  }

  /** Byte-wise order of Go's strings.Compare (code-point order agrees with UTF-8 byte order). */
  predicate AtMost(a: string, b: string) {
    a == [] || (b != [] && (a[0] < b[0] || (a[0] == b[0] && AtMost(a[1..], b[1..]))))
  }

  predicate Below(a: string, b: string) {
    AtMost(a, b) && a != b
  }

  lemma {:induction false} AtMostTotal(a: string, b: string)
    ensures AtMost(a, b) || AtMost(b, a)
  {
    if a != [] && b != [] && a[0] == b[0] {
      AtMostTotal(a[1..], b[1..]);
    }
  }

  lemma {:induction false} AtMostAntisymmetric(a: string, b: string)
    requires AtMost(a, b) && AtMost(b, a)
    ensures a == b
  {
    if a != [] && b != [] {
      AtMostAntisymmetric(a[1..], b[1..]);
      assert a == [a[0]] + a[1..];
      assert b == [b[0]] + b[1..];
    }
  }

  lemma {:induction false} AtMostTransitive(a: string, b: string, c: string)
    requires AtMost(a, b) && AtMost(b, c)
    ensures AtMost(a, c)
  {
    if a != [] && b != [] && c != [] && a[0] == b[0] && b[0] == c[0] {
      AtMostTransitive(a[1..], b[1..], c[1..]);
    }
  }

  lemma AtMostReflexive(a: string)
    ensures AtMost(a, a)
  {
  }

  /** strings.Compare: negative, zero or positive as a sorts before, equal to or after b. */
  function Compare(a: string, b: string): (r: int)
    ensures r == 0 <==> a == b
    ensures r < 0 <==> Below(a, b)
    ensures r > 0 <==> Below(b, a)
  {
    if a == [] && b == [] then 0
    else if a == [] then -1
    else if b == [] then 1
    else if a[0] < b[0] then -1
    else if a[0] > b[0] then 1
    else
      assert a == [a[0]] + a[1..] && b == [b[0]] + b[1..];
      Compare(a[1..], b[1..])
  }

  /** Below is strict: what is below b is not at or above it. */
  lemma {:induction false} BelowNotAtMost(a: string, b: string)
    requires Below(a, b)
    ensures !AtMost(b, a)
  {
    if a != [] && b != [] && a[0] == b[0] {
      assert a == [a[0]] + a[1..] && b == [b[0]] + b[1..];
      BelowNotAtMost(a[1..], b[1..]);
    }
  }
}
