/** The base-image declaration pattern of dockerbuild/variables.go,
      FROM\s+(({{\s+local\s+}}/)?([\w\-\_\/\:\.\{\}]+))([\s\n])?
    written as a hand-made matcher with RE2's leftmost-first semantics.
    A match gives the three capture groups the code reads: group 1 (`image`,
    the full reference), group 2 (`marker`, the optional `{{ local }}/`
    prefix that marks an internal image) and group 3 (`role`, the reference
    token after the marker). */
module FromLine {
  import opened Wrappers
  import opened Text

  /** The reference token class `[\w\-\_\/\:\.\{\}]`. */
  predicate IsRefChar(c: char) {
    IsWordChar(c) || c == '-' || c == '_' || c == '/' || c == ':' || c == '.' || c == '{' || c == '}'
  }

  /** The internal marker `{{\s+local\s+}}/`. */
  ghost predicate IsLocalMarker(t: string) {
    exists a: string, b: string :: |a| > 0 && |b| > 0 && AllSpace(a) && AllSpace(b) &&
      t == "{{" + a + "local" + b + "}}/"
  }

  /** One match of the pattern: the text of groups 1, 2 and 3 and the indices
      where the match, the reference, the role token and the match's end lie. */
  datatype FromMatch = FromMatch(
    start: nat, imageStart: nat, roleStart: nat, roleEnd: nat, end: nat,
    image: string, marker: string, role: string)
  {
    /** Group 2 is non-empty: the base image is built by this system. */
    predicate IsInternal() { |marker| > 0 }
  }

  /** The end of the run of spaces that starts at `i`. */
  function SkipSpaces(s: string, i: nat): (j: nat)
    requires i <= |s|
    ensures i <= j <= |s| && AllSpace(s[i..j])
    ensures j == |s| || !IsSpace(s[j])
    decreases |s| - i
  {
    if i < |s| && IsSpace(s[i]) then SkipSpaces(s, i + 1) else i
  }

  /** A maximal run of spaces is the one `SkipSpaces` finds. */
  lemma {:induction false} SkipSpacesAt(s: string, i: nat, m: nat)
    requires i <= m <= |s| && AllSpace(s[i..m])
    requires m == |s| || !IsSpace(s[m])
    ensures SkipSpaces(s, i) == m
    decreases m - i
  {
    if i < m {
      assert IsSpace(s[i..m][0]);
      assert s[i + 1..m] == s[i..m][1..];
      SkipSpacesAt(s, i + 1, m);
    }
  }

  /** The end of the run of reference characters that starts at `i`. */
  function SkipRefChars(s: string, i: nat): (j: nat)
    requires i <= |s|
    ensures i <= j <= |s|
    ensures forall k :: i <= k < j ==> IsRefChar(s[k])
    ensures j == |s| || !IsRefChar(s[j])
    decreases |s| - i
  {
    if i < |s| && IsRefChar(s[i]) then SkipRefChars(s, i + 1) else i
  }

  /** A maximal run of reference characters is the one `SkipRefChars` finds. */
  lemma {:induction false} SkipRefCharsAt(s: string, i: nat, m: nat)
    requires i <= m <= |s| && forall k :: i <= k < m ==> IsRefChar(s[k])
    requires m == |s| || !IsRefChar(s[m])
    ensures SkipRefChars(s, i) == m
    decreases m - i
  {
    if i < m {
      SkipRefCharsAt(s, i + 1, m);
    }
  }

  /** A slice that spells `x + y` spells `x` and then `y`. */
  lemma SplitSlice(s: string, j: nat, x: string, y: string)
    requires j + |x| + |y| <= |s| && s[j..j + |x| + |y|] == x + y
    ensures s[j..j + |x|] == x && s[j + |x|..j + |x| + |y|] == y
  {
    assert s[j..j + |x|] == s[j..j + |x| + |y|][..|x|];
    assert s[j + |x|..j + |x| + |y|] == s[j..j + |x| + |y|][|x|..];
  }

  /** Where the internal marker that starts at `j` ends, if one does. */
  function MarkerEnd(s: string, j: nat): (r: Option<nat>)
    requires j <= |s|
    ensures r.Some? ==> j < r.value <= |s| && IsLocalMarker(s[j..r.value])
  {
    if !(j + 2 <= |s| && s[j..j + 2] == "{{") then None
    else
      var k := SkipSpaces(s, j + 2);
      if !(k > j + 2 && k + 5 <= |s| && s[k..k + 5] == "local") then None
      else
        var l := SkipSpaces(s, k + 5);
        if !(l > k + 5 && l + 3 <= |s| && s[l..l + 3] == "}}/") then None
        else
          var a, b := s[j + 2..k], s[k + 5..l];
          assert s[j..l + 3] == s[j..j + 2] + a + s[k..k + 5] + b + s[l..l + 3];
          Some(l + 3)
  }

  /** Every marker text at `j` is the one `MarkerEnd` finds. */
  lemma MarkerEndComplete(s: string, j: nat, a: string, b: string)
    requires |a| > 0 && |b| > 0 && AllSpace(a) && AllSpace(b)
    requires j <= |s| && StartsWith(s[j..], "{{" + a + "local" + b + "}}/")
    ensures MarkerEnd(s, j) == Some(j + |a| + |b| + 10)
  {
    var t := "{{" + a + "local" + b + "}}/";
    assert s[j..j + |t|] == t;
    var k, l := j + 2 + |a|, j + 7 + |a| + |b|;
    SplitSlice(s, j, "{{" + a + "local" + b, "}}/");
    SplitSlice(s, j, "{{" + a + "local", b);
    SplitSlice(s, j, "{{" + a, "local");
    SplitSlice(s, j, "{{", a);
    Steps(s, j, k, l);
  }

  lemma Steps(s: string, j: nat, k: nat, l: nat)
    requires j + 2 < k && k + 5 < l && l + 3 <= |s|
    requires s[j..j + 2] == "{{" && s[k..k + 5] == "local" && s[l..l + 3] == "}}/"
    requires AllSpace(s[j+2..k]) && AllSpace(s[k+5..l])
    ensures MarkerEnd(s, j) == Some(l + 3)
  {
    SkipSpacesAt(s, j + 2, k);
    SkipSpacesAt(s, k + 5, l);
  }

  /** The pattern matches at `p`: FROM, at least one space, and a reference
      character once the spaces end. */
  predicate MatchesAt(s: string, p: nat)
    requires p <= |s|
  {
    p + 4 < |s| && s[p..p + 4] == "FROM" && IsSpace(s[p + 4]) &&
    SkipSpaces(s, p + 4) < |s| && IsRefChar(s[SkipSpaces(s, p + 4)])
  }

  /** The optional group 2 is taken exactly when the marker is there and a
      reference character follows it (the group is greedy, group 3 needs a character). */
  predicate MarkerTaken(s: string, j: nat)
    requires j <= |s|
  {
    MarkerEnd(s, j).Some? && MarkerEnd(s, j).value < |s| && IsRefChar(s[MarkerEnd(s, j).value])
  }

  /** What the pattern's leftmost-first semantics makes of a match `m` at `p`. */
  ghost predicate IsMatchAt(s: string, p: nat, m: FromMatch) {
    && m.start == p && p + 4 <= |s| && s[p..p + 4] == "FROM"
    && p + 4 < m.imageStart <= m.roleStart < m.roleEnd <= m.end <= |s|
    // \s+ : at least one space, as many as there are
    && AllSpace(s[p + 4..m.imageStart]) && !IsSpace(s[m.imageStart])
    // the groups, and group 1 = group 2 ++ group 3
    && m.image == s[m.imageStart..m.roleEnd]
    && m.marker == s[m.imageStart..m.roleStart]
    && m.role == s[m.roleStart..m.roleEnd]
    && m.image == m.marker + m.role
    // group 2 is the marker when it can be, and empty otherwise
    && (m.marker == [] || IsLocalMarker(m.marker))
    && (m.marker == [] <==> !MarkerTaken(s, m.imageStart))
    // group 3 is the longest run of reference characters
    && (forall k :: m.roleStart <= k < m.roleEnd ==> IsRefChar(s[k]))
    && (m.roleEnd == |s| || !IsRefChar(s[m.roleEnd]))
    // the optional trailing space belongs to the match
    && m.end == (if m.roleEnd < |s| && IsSpace(s[m.roleEnd]) then m.roleEnd + 1 else m.roleEnd)
  }

  /** The match at `p`, when the pattern matches there. */
  function MatchFrom(s: string, p: nat): (m: FromMatch)
    requires p <= |s| && MatchesAt(s, p)
    ensures IsMatchAt(s, p, m)
  {
    var j := SkipSpaces(s, p + 4);
    var rs := if MarkerTaken(s, j) then MarkerEnd(s, j).value else j;
    var re := SkipRefChars(s, rs);
    var e := if re < |s| && IsSpace(s[re]) then re + 1 else re;
    assert s[j..re] == s[j..rs] + s[rs..re];
    FromMatch(p, j, rs, re, e, s[j..re], s[j..rs], s[rs..re])
  }

  /** The match that starts at index `p`, if the pattern matches there. */
  function MatchAt(s: string, p: nat): (r: Option<FromMatch>)
    requires p <= |s|
    ensures r.Some? <==> MatchesAt(s, p)
    ensures r.Some? ==> IsMatchAt(s, p, r.value)
  {
    if MatchesAt(s, p) then Some(MatchFrom(s, p)) else None
  }

  /** Go's `FindStringSubmatch` from index `from`: the leftmost match. */
  function FindFirst(s: string, from: nat): (r: Option<FromMatch>)
    requires from <= |s|
    ensures r.Some? ==> from <= r.value.start < r.value.end <= |s|
    decreases |s| - from
  {
    match MatchAt(s, from)
    case Some(m) => Some(m)
    case None => if from == |s| then None else FindFirst(s, from + 1)
  }

  /** The match `FindFirst` returns is the one the pattern makes at its start. */
  lemma {:induction false} FindFirstSound(s: string, from: nat)
    requires from <= |s| && FindFirst(s, from).Some?
    ensures MatchAt(s, FindFirst(s, from).value.start) == FindFirst(s, from)
    decreases |s| - from
  {
    if MatchAt(s, from).None? {
      FindFirstSound(s, from + 1);
    }
  }

  /** No match starts between `from` and the one `FindFirst` returns, and
      when it returns none, no match starts anywhere after `from`. */
  lemma {:induction false} FindFirstLeftmost(s: string, from: nat, q: nat)
    requires from <= q <= |s|
    ensures FindFirst(s, from).Some? && q < FindFirst(s, from).value.start ==> MatchAt(s, q).None?
    ensures FindFirst(s, from).None? ==> MatchAt(s, q).None?
    decreases |s| - from
  {
    if MatchAt(s, from).None? && from < q {
      FindFirstLeftmost(s, from + 1, q);
    }
  }

  /** Go's `FindAllStringSubmatch(s[from:], -1)`: successive leftmost matches,
      each search resuming where the previous match ended. */
  function FindAllFrom(s: string, from: nat): (r: seq<FromMatch>)
    requires from <= |s|
    ensures r == [] <==> FindFirst(s, from).None?
    ensures r != [] ==> FindFirst(s, from) == Some(r[0])
    ensures forall i :: 0 <= i < |r| ==> from <= r[i].start < r[i].end <= |s|
    decreases |s| - from
  {
    match FindFirst(s, from)
    case None => []
    case Some(m) => [m] + FindAllFrom(s, m.end)
  }

  /** Each match after the first is the leftmost one from where its predecessor ended. */
  lemma {:induction false} FindAllSuccessor(s: string, from: nat, i: nat)
    requires from <= |s| && i + 1 < |FindAllFrom(s, from)|
    ensures FindAllFrom(s, from)[i].end <= FindAllFrom(s, from)[i + 1].start
    ensures FindFirst(s, FindAllFrom(s, from)[i].end) == Some(FindAllFrom(s, from)[i + 1])
    decreases |s| - from
  {
    var m := FindFirst(s, from).value;
    var t := FindAllFrom(s, m.end);
    assert FindAllFrom(s, from) == [m] + t;
    if i > 0 {
      FindAllSuccessor(s, m.end, i - 1);
    }
  }

  /** Every element of `FindAll` is the match the pattern makes at its start. */
  lemma {:induction false} FindAllSound(s: string, from: nat, i: nat)
    requires from <= |s| && i < |FindAllFrom(s, from)|
    ensures MatchAt(s, FindAllFrom(s, from)[i].start) == Some(FindAllFrom(s, from)[i])
    decreases |s| - from
  {
    var m := FindFirst(s, from).value;
    FindFirstSound(s, from);
    if i > 0 {
      assert FindAllFrom(s, from) == [m] + FindAllFrom(s, m.end);
      FindAllSound(s, m.end, i - 1);
    }
  }

  /** Every place after `from` where the pattern matches lies inside one of
      the matches `FindAll` returns: nothing is skipped but what a match consumed. */
  lemma {:induction false} FindAllComplete(s: string, from: nat, q: nat)
    requires from <= q <= |s| && MatchAt(s, q).Some?
    ensures exists i :: 0 <= i < |FindAllFrom(s, from)| &&
              FindAllFrom(s, from)[i].start <= q < FindAllFrom(s, from)[i].end
    decreases |s| - from
  {
    FindFirstLeftmost(s, from, q);
    var r := FindAllFrom(s, from);
    var m := FindFirst(s, from).value;
    assert r[0] == m;
    if q >= m.end {
      FindAllComplete(s, m.end, q);
      var t := FindAllFrom(s, m.end);
      var i :| 0 <= i < |t| && t[i].start <= q < t[i].end;
      assert r == [m] + t;
      assert r[i + 1] == t[i];
    }
  }

  function FindAll(s: string): seq<FromMatch> {
    FindAllFrom(s, 0)
  }

  /** When a marker with inner spaces follows the spaces after FROM and a
      reference character follows the marker, the match is internal and its
      group 2 is that marker. */
  lemma MarkerIsTaken(s: string, p: nat, m: FromMatch, a: string, b: string)
    requires |a| > 0 && |b| > 0 && AllSpace(a) && AllSpace(b)
    requires p <= |s| && MatchAt(s, p) == Some(m)
    requires StartsWith(s[m.imageStart..], "{{" + a + "local" + b + "}}/")
    requires m.imageStart + |a| + |b| + 10 < |s| && IsRefChar(s[m.imageStart + |a| + |b| + 10])
    ensures m.IsInternal() && m.marker == "{{" + a + "local" + b + "}}/"
  {
    var t := "{{" + a + "local" + b + "}}/";
    MarkerEndComplete(s, m.imageStart, a, b);
    assert MarkerTaken(s, m.imageStart);
    assert m.roleStart == m.imageStart + |t|;
    assert s[m.imageStart..][..|t|] == t;
    assert s[m.imageStart..m.imageStart + |t|] == t;
  }

  /** The match at `p` assembled from the runs it is made of. */
  lemma MatchAtParts(s: string, p: nat, j: nat, rs: nat, re: nat)
    requires p + 4 < |s| && s[p..p + 4] == "FROM" && IsSpace(s[p + 4])
    requires SkipSpaces(s, p + 4) == j && j < |s| && IsRefChar(s[j])
    requires MarkerTaken(s, j) ==> MarkerEnd(s, j) == Some(rs)
    requires !MarkerTaken(s, j) ==> rs == j
    requires rs <= |s| && SkipRefChars(s, rs) == re && re == |s|
    ensures MatchAt(s, p) == Some(FromMatch(p, j, rs, re, re, s[j..re], s[j..rs], s[rs..re]))
  {
  }

  /** The leftmost match from `p` is the one at `p` when there is one. */
  lemma FindFirstHere(s: string, p: nat, m: FromMatch)
    requires p <= |s| && MatchAt(s, p) == Some(m)
    ensures FindFirst(s, p) == Some(m)
  {
  }

  const Compact := "FROM {{local}}/x"
  const Declared := "FROM {{ local }}/base"

  lemma CompactRuns()
    ensures SkipSpaces(Compact, 4) == 5 && MarkerEnd(Compact, 5).None? && SkipRefChars(Compact, 5) == 16
  {
    var s := Compact;
    SkipSpacesAt(s, 4, 5);
    SkipSpacesAt(s, 7, 7);
    SkipRefCharsAt(s, 5, 16);
  }

  lemma CompactRole()
    ensures Compact[5..16] == "{{local}}/x"
  {
  }

  /** Without spaces inside the braces the marker is not recognised; as braces
      belong to the reference class, the whole text becomes group 3. */
  lemma CompactMarkerIsExternal()
    ensures FindFirst(Compact, 0).Some?
    ensures FindFirst(Compact, 0).value.marker == ""
    ensures FindFirst(Compact, 0).value.role == "{{local}}/x"
  {
    var s := Compact;
    CompactRuns();
    MatchAtParts(s, 0, 5, 5, 16);
    FindFirstHere(s, 0, FromMatch(0, 5, 5, 16, 16, s[5..16], s[5..5], s[5..16]));
    CompactRole();
  }

  lemma DeclaredMarker()
    ensures MarkerEnd(Declared, 5) == Some(17)
  {
    var s := Declared;
    assert s[5..7] == "{{" && s[8..13] == "local" && s[14..17] == "}}/";
    assert AllSpace(s[7..8]) && AllSpace(s[13..14]);
    Steps(s, 5, 8, 14);
  }

  lemma DeclaredRuns()
    ensures SkipSpaces(Declared, 4) == 5 && MarkerTaken(Declared, 5) && SkipRefChars(Declared, 17) == 21
  {
    var s := Declared;
    SkipSpacesAt(s, 4, 5);
    DeclaredMarker();
    SkipRefCharsAt(s, 17, 21);
  }

  lemma DeclaredGroups()
    ensures Declared[5..17] == "{{ local }}/" && Declared[17..21] == "base"
  {
  }

  /** The internal form of the declaration: group 2 is the marker and group 3 the image. */
  lemma InternalDeclaration()
    ensures FindFirst(Declared, 0).Some?
    ensures FindFirst(Declared, 0).value.IsInternal()
    ensures FindFirst(Declared, 0).value.marker == "{{ local }}/"
    ensures FindFirst(Declared, 0).value.role == "base"
  {
    var s := Declared;
    DeclaredRuns();
    DeclaredMarker();
    MatchAtParts(s, 0, 5, 17, 21);
    FindFirstHere(s, 0, FromMatch(0, 5, 17, 21, 21, s[5..21], s[5..17], s[17..21]));
    DeclaredGroups();
  }

  /** The one match in `Declared`, group by group. */
  const DeclaredMatch := FromMatch(0, 5, 17, 21, 21, "{{ local }}/base", "{{ local }}/", "base")

  lemma DeclaredFindAll()
    ensures FindAll(Declared) == [DeclaredMatch]
  {
    var s := Declared;
    DeclaredRuns();
    DeclaredMarker();
    MatchAtParts(s, 0, 5, 17, 21);
    DeclaredGroups();
    assert s[5..21] == "{{ local }}/base";
    FindFirstHere(s, 0, DeclaredMatch);
    assert FindFirst(s, 21).None?;
  }
}
