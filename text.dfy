/** String primitives shared by the model: Go's byte strings are `seq<char>`,
    one character per byte, and the character classes are RE2's ASCII ones. */
module Text {
  import opened Wrappers

  /** RE2's `\s`: tab, newline, form feed, carriage return and space. */
  predicate IsSpace(c: char) {
    c == ' ' || c == '\t' || c == '\n' || c == '\U{C}' || c == '\r'
  }

  /** RE2's `\w`: ASCII letters, digits and underscore. */
  predicate IsWordChar(c: char) {
    ('a' <= c <= 'z') || ('A' <= c <= 'Z') || ('0' <= c <= '9') || c == '_'
  }

  predicate AllSpace(s: string) {
    forall i :: 0 <= i < |s| ==> IsSpace(s[i])
  }

  predicate StartsWith(s: string, p: string) {
    |p| <= |s| && s[..|p|] == p
  }

  /** `t` occurs in `s` starting at index `i`. */
  predicate OccursAt(s: string, t: string, i: nat) {
    i + |t| <= |s| && s[i..i + |t|] == t
  }

  /** The first index at or after `k` where `t` occurs in `s` (Go's `strings.Index` on `s[k:]`). */
  function IndexFrom(s: string, t: string, k: nat): (r: Option<nat>)
    ensures r.Some? ==> k <= r.value && OccursAt(s, t, r.value)
    ensures r.Some? ==> forall j: nat :: k <= j < r.value ==> !OccursAt(s, t, j)
    ensures r.None? ==> forall j: nat :: k <= j ==> !OccursAt(s, t, j)
    decreases |s| - k
  {
    if k + |t| > |s| then None
    else if s[k..k + |t|] == t then Some(k)
    else IndexFrom(s, t, k + 1)
  }

  /** Go's `strings.Replace(s, old, new, 1)`: the first occurrence of `old`
      (the empty string occurs at index 0) is replaced by `new`; without an
      occurrence `s` is returned unchanged. */
  function ReplaceFirst(s: string, pat: string, rep: string): (r: string)
    ensures (forall j: nat :: !OccursAt(s, pat, j)) ==> r == s
    ensures forall i: nat :: OccursAt(s, pat, i) && (forall j: nat :: j < i ==> !OccursAt(s, pat, j)) ==>
                        r == s[..i] + rep + s[i + |pat|..]
  {
    match IndexFrom(s, pat, 0)
    case None => s
    case Some(i) =>
      assert forall i': nat :: OccursAt(s, pat, i') && (forall j: nat :: j < i' ==> !OccursAt(s, pat, j)) ==> i' == i;
      s[..i] + rep + s[i + |pat|..]
  }

  /** A string that ends in `/`: it is returned as it is, any other gets one appended.
      (The filesystem helper `ForceTrailingSlash` is not part of this model; this is
      the behaviour its name promises.) */
  function ForceTrailingSlash(s: string): (r: string)
    ensures |r| > 0 && r[|r| - 1] == '/'
    ensures StartsWith(r, s) && |r| <= |s| + 1
    ensures |s| > 0 && s[|s| - 1] == '/' ==> r == s
  {
    if |s| > 0 && s[|s| - 1] == '/' then s else s + "/"
  }

  lemma ForceTrailingSlashIdempotent(s: string)
    ensures ForceTrailingSlash(ForceTrailingSlash(s)) == ForceTrailingSlash(s)
  {
  }

  /** ASCII lower-casing of one character. */
  function LowerChar(c: char): char {
    if 'A' <= c <= 'Z' then (c as int + 32) as char else c
  }

  /** `strings.ToLower` restricted to ASCII. */
  function ToLower(s: string): (r: string)
    ensures |r| == |s| && forall i :: 0 <= i < |s| ==> r[i] == LowerChar(s[i])
  {
    if s == [] then [] else [LowerChar(s[0])] + ToLower(s[1..])
  }

  /** The number of times `c` occurs in `s`. */
  function Count(s: string, c: char): nat {
    if s == [] then 0 else (if s[0] == c then 1 else 0) + Count(s[1..], c)
  }

  lemma {:induction false} CountConcat(a: string, b: string, c: char)
    ensures Count(a + b, c) == Count(a, c) + Count(b, c)
  {
    if a == [] {
      assert a + b == b;
    } else {
      assert (a + b)[1..] == a[1..] + b;
      CountConcat(a[1..], b, c);
    }
  }

  lemma {:induction false} CountAbsent(s: string, c: char)
    requires c !in s
    ensures Count(s, c) == 0
  {
    if s != [] {
      assert forall x :: x in s[1..] ==> x in s;
      CountAbsent(s[1..], c);
    }
  }

  /** A line whose body holds no `c`, ended by `c`, holds one `c`. */
  lemma OneLine(body: string, c: char)
    requires c !in body
    ensures Count(body + [c], c) == 1
  {
    CountAbsent(body, c);
    CountConcat(body, [c], c);
    assert [c][1..] == [];
  }
}
