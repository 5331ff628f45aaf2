/** Loading the base-image instruction files (`loadBaseImageDockerfiles` in
    dockerbuild/base-images.go): every visible, non-empty file under the
    dockerfile directory becomes a record, classified by the FROM pattern on
    its first line; empty files are skipped, and a first line without a FROM
    match makes the whole load fail. */
module Inventory {
  import opened Wrappers
  import opened Text
  import opened FromLine
  import opened DockerBuild
  import opened FileSystem

  /** The default buffer size of a `bufio.Reader`: one `ReadLine` returns at most this many bytes. */
  const BufferSize := 4096

  /** The index of the first newline at or after `i`, or `|s|` when there is none. */
  function LineEnd(s: string, i: nat): (k: nat)
    requires i <= |s|
    ensures i <= k <= |s| && (k < |s| ==> s[k] == '\n')
    ensures forall j :: i <= j < k ==> s[j] != '\n'
    decreases |s| - i
  {
    if i == |s| || s[i] == '\n' then i else LineEnd(s, i + 1)
  }

  /** `s` without one trailing carriage return. */
  function DropCR(s: string): string {
    if |s| > 0 && s[|s| - 1] == '\r' then s[..|s| - 1] else s
  }

  /** The first `ReadLine` on a buffered reader over `data`: nothing (end of
      file) for empty data; otherwise the bytes before the first newline without
      a `\r` before it, or, when the buffer fills before a newline, the buffered
      bytes without a trailing `\r`. */
  function FirstLine(data: string): (r: Option<string>)
    ensures r.None? <==> data == []
    ensures r.Some? ==> StartsWith(data, r.value) && |r.value| <= BufferSize
    ensures r.Some? ==> forall j :: 0 <= j < |r.value| ==> r.value[j] != '\n'
  {
    if data == [] then None
    else
      var k := LineEnd(data, 0);
      if k < |data| && k < BufferSize then
        Some(DropCR(data[..k]))
      else if |data| < BufferSize then
        Some(data)
      else
        Some(DropCR(data[..BufferSize]))
  }

  /** A line shorter than the buffer and ended by `\n` or `\r\n` is read without its terminator. */
  lemma FirstLineOfText(line: string, terminator: string, rest: string)
    requires terminator == "\n" || terminator == "\r\n"
    requires |line| + 1 < BufferSize && forall j :: 0 <= j < |line| ==> line[j] != '\n'
    requires |line| > 0 ==> line[|line| - 1] != '\r'
    ensures FirstLine(line + terminator + rest) == Some(line)
  {
    var data := line + terminator + rest;
    var k := |line| + |terminator| - 1;
    assert data[k] == '\n';
    assert forall j :: 0 <= j < k ==> data[j] != '\n' by {
      forall j | 0 <= j < k ensures data[j] != '\n' {
        if j < |line| { assert data[j] == line[j]; }
      }
    }
    assert LineEnd(data, 0) == k;
    if terminator == "\n" {
      assert data[..k] == line;
    } else {
      assert data[..k] == line + "\r";
      assert DropCR(line + "\r") == line;
    }
  }

  /** When no newline comes within the buffer, the line is cut at the buffer size. */
  lemma FirstLineOfLongLine(data: string)
    requires |data| >= BufferSize && forall j :: 0 <= j < BufferSize ==> data[j] != '\n'
    ensures FirstLine(data).Some? && |FirstLine(data).value| >= BufferSize - 1
    ensures StartsWith(data[..BufferSize], FirstLine(data).value)
  {
    assert LineEnd(data, 0) >= BufferSize;
  }

  /** How a first line describes the image's base. */
  datatype Classification = Classification(parentName: string, hasInternalDependencies: bool)

  /** Lines 181-188: the leftmost match decides; the parent is group 1 with the
      marker removed once. A line without a match has no classification (the
      code indexes the missing match and panics). */
  function Classify(line: string): (r: Option<Classification>)
    ensures r.None? <==> FindFirst(line, 0).None?
  {
    match FindFirst(line, 0)
    case None => None
    case Some(m) =>
      var internal := |m.marker| > 0;
      Some(Classification(if internal then ReplaceFirst(m.image, m.marker, "") else "", internal))
  }

  /** A file depends internally exactly when the marker group is non-empty, and
      its parent is then the role token (never empty); an external file has no parent name. */
  lemma {:induction false} ClassifyGroups(line: string, m: FromMatch)
    requires FindFirst(line, 0) == Some(m)
    ensures Classify(line) == Some(Classification(if m.IsInternal() then m.role else "", m.IsInternal()))
    ensures m.IsInternal() ==> |m.role| > 0
  {
    FindFirstSound(line, 0);
    assert MatchAt(line, m.start) == Some(m);
    assert m.image == m.marker + m.role && m.roleStart < m.roleEnd && |m.role| == m.roleEnd - m.roleStart by {
      assert IsMatchAt(line, m.start, m);
    }
    if m.IsInternal() {
      ReplaceMarker(m.image, m.marker, m.role);
    }
  }

  /** Removing the prefix `marker` from `marker + role` leaves `role`. */
  lemma ReplaceMarker(image: string, marker: string, role: string)
    requires image == marker + role
    ensures ReplaceFirst(image, marker, "") == role
  {
    assert image[..|marker|] == marker;
    assert OccursAt(image, marker, 0);
    assert image[|marker|..] == role;
    assert image[..0] + "" + image[|marker|..] == role;
  }

  /** Lines 146-201 as a value: the files of directory `d` (at `subpath`
      below `root`) from listing index `i` on, added to `acc`. */
  function LoadEntries(root: string, subpath: string, d: Entry, i: nat, acc: map<string, Record>): Result<map<string, Record>, Fatal>
    requires d.Directory? && i <= |d.listing|
    decreases d, 0, |d.listing| - i
  {
    if i == |d.listing| then Ok(acc)
    else
      var f := d.listing[i];
      var relativeFile := subpath + f.name;
      if f.name == [] then Err(EmptyEntryName(root + subpath))
      else if f.name[0] == '.' then LoadEntries(root, subpath, d, i + 1, acc)
      else if !f.File? then
        match LoadDirectory(root, relativeFile + "/", f)
        case Err(e) => Err(e)
        case Ok(sub) => LoadEntries(root, subpath, d, i + 1, acc + sub)
      else if f.contents.None? then Err(ReadFailed(root + relativeFile))
      else
        match FirstLine(f.contents.value)
        case None => LoadEntries(root, subpath, d, i + 1, acc)
        case Some(line) =>
          match Classify(line)
          case None => Err(NoFromInstruction(root + relativeFile))
          case Some(c) =>
            var rec := Record(relativeFile, c.parentName, root + relativeFile, c.hasInternalDependencies);
            LoadEntries(root, subpath, d, i + 1, acc[relativeFile := rec])
  }

  /** The records of the directory `d` at `subpath`, keyed by name. */
  function LoadDirectory(root: string, subpath: string, d: Entry): Result<map<string, Record>, Fatal>
    requires !d.File?
    decreases d, 1
  {
    if d.Unlistable? then Err(ListingFailed(root + subpath))
    else LoadEntries(root, subpath, d, 0, map[])
  }

  /** The values of loaded records. */
  function Values(m: map<string, Dockerfile>): map<string, Record> {
    map n | n in m :: m[n].Value()
  }

  function Snapshot(r: Result<map<string, Dockerfile>, Fatal>): Result<map<string, Record>, Fatal> {
    match r
    case Err(e) => Err(e)
    case Ok(m) => Ok(Values(m))
  }

  lemma ValuesUpdate(m: map<string, Dockerfile>, n: string, df: Dockerfile)
    ensures Values(m[n := df]) == Values(m)[n := df.Value()]
  {
  }

  lemma ValuesUnion(m: map<string, Dockerfile>, sub: map<string, Dockerfile>)
    ensures Values(m + sub) == Values(m) + Values(sub)
  {
  }

  /** Every record of the sub-directory's map is copied in, a later key winning. */
  method Merge(into: map<string, Dockerfile>, from: map<string, Dockerfile>) returns (r: map<string, Dockerfile>)
    ensures r == into + from
  {
    r := into;
    var rest := from.Keys;
    while rest != {}
      invariant rest <= from.Keys
      invariant r == into + map n | n in from.Keys - rest :: from[n]
      decreases rest
    {
      var n :| n in rest;
      r := r[n := from[n]];
      rest := rest - {n};
    }
    assert from.Keys - rest == from.Keys;
  }

  /** The loader: lists `d`, recurses into sub-directories and reads the first
      line of every other visible entry, creating one fresh, unmarked record per file. */
  method LoadBaseImageDockerfiles(root: string, subpath: string, d: Entry) returns (r: Result<map<string, Dockerfile>, Fatal>)
    requires !d.File?
    ensures Snapshot(r) == LoadDirectory(root, subpath, d)
    ensures r.Ok? ==> forall n :: n in r.value ==> fresh(r.value[n]) && !r.value[n].isBuildable
    decreases d
  {
    if d.Unlistable? {
      return Err(ListingFailed(root + subpath));
    }
    var dockerfiles: map<string, Dockerfile> := map[];
    var i := 0;
    while i < |d.listing|
      invariant 0 <= i <= |d.listing|
      invariant LoadEntries(root, subpath, d, i, Values(dockerfiles)) == LoadDirectory(root, subpath, d)
      invariant forall n :: n in dockerfiles ==> fresh(dockerfiles[n]) && !dockerfiles[n].isBuildable
    {
      var f := d.listing[i];
      var relativeFile := subpath + f.name;
      if f.name == [] {
        return Err(EmptyEntryName(root + subpath));
      }
      if f.name[0] != '.' {
        if !f.File? {
          var sub := LoadBaseImageDockerfiles(root, relativeFile + "/", f);
          if sub.Err? {
            return Err(sub.error);
          }
          ValuesUnion(dockerfiles, sub.value);
          dockerfiles := Merge(dockerfiles, sub.value);
        } else {
          if f.contents.None? {
            return Err(ReadFailed(root + relativeFile));
          }
          var line := FirstLine(f.contents.value);
          if line.Some? {
            var c := Classify(line.value);
            if c.None? {
              return Err(NoFromInstruction(root + relativeFile));
            }
            var df := new Dockerfile(relativeFile, c.value.parentName, root + relativeFile, c.value.hasInternalDependencies);
            ValuesUpdate(dockerfiles, relativeFile, df);
            dockerfiles := dockerfiles[relativeFile := df];
          }
        }
      }
      i := i + 1;
    }
    return Ok(dockerfiles);
  }

  /** What every loaded record satisfies: it is keyed by its name, which is a
      visible file's path below `subpath`; its file name is that path under the
      root; and a parent name is present exactly for internal dependencies. */
  ghost predicate Loaded(root: string, subpath: string, d: Entry, n: string, rec: Record) {
    && rec.name == n && rec.filename == root + n
    && StartsWith(n, subpath) && |n| > |subpath| && VisibleFileAt(d, n[|subpath|..])
    && (rec.hasInternalDependencies ==> |rec.parentName| > 0)
    && (!rec.hasInternalDependencies ==> rec.parentName == "")
  }

  ghost predicate AllLoaded(root: string, subpath: string, d: Entry, m: map<string, Record>) {
    forall n :: n in m ==> Loaded(root, subpath, d, n, m[n])
  }

  lemma {:induction false} LoadEntriesSound(root: string, subpath: string, d: Entry, i: nat, acc: map<string, Record>)
    requires d.Directory? && i <= |d.listing|
    requires AllLoaded(root, subpath, d, acc)
    ensures LoadEntries(root, subpath, d, i, acc).Ok? ==> AllLoaded(root, subpath, d, LoadEntries(root, subpath, d, i, acc).value)
    decreases d, 0, |d.listing| - i
  {
    if i < |d.listing| {
      var f := d.listing[i];
      var relativeFile := subpath + f.name;
      if f.name != [] && f.name[0] != '.' {
        if !f.File? {
          var sub := LoadDirectory(root, relativeFile + "/", f);
          if sub.Ok? {
            LoadDirectorySound(root, relativeFile + "/", f);
            forall n | n in sub.value ensures Loaded(root, subpath, d, n, sub.value[n]) {
              assert Loaded(root, relativeFile + "/", f, n, sub.value[n]);
              SubdirectoryFile(subpath, d, i, n);
            }
            LoadEntriesSound(root, subpath, d, i + 1, acc + sub.value);
          }
        } else if f.contents.Some? {
          match FirstLine(f.contents.value)
          case None =>
            LoadEntriesSound(root, subpath, d, i + 1, acc);
          case Some(line) =>
            match Classify(line)
            case None =>
            case Some(c) =>
              var m :| FindFirst(line, 0) == Some(m);
              ClassifyGroups(line, m);
              var rec := Record(relativeFile, c.parentName, root + relativeFile, c.hasInternalDependencies);
              assert relativeFile[|subpath|..] == f.name;
              assert VisibleChildAt(d, i, f.name);
              assert Loaded(root, subpath, d, relativeFile, rec);
              LoadEntriesSound(root, subpath, d, i + 1, acc[relativeFile := rec]);
        }
      } else if f.name != [] {
        assert LoadEntries(root, subpath, d, i, acc) == LoadEntries(root, subpath, d, i + 1, acc);
        LoadEntriesSound(root, subpath, d, i + 1, acc);
      }
    }
  }

  /** A visible file of the sub-directory at listing index `i` is a visible file of `d`. */
  lemma SubdirectoryFile(subpath: string, d: Entry, i: nat, n: string)
    requires d.Directory? && i < |d.listing| && !d.listing[i].File?
    requires d.listing[i].name != [] && d.listing[i].name[0] != '.'
    requires var sp := subpath + d.listing[i].name + "/";
             StartsWith(n, sp) && |n| > |sp| && VisibleFileAt(d.listing[i], n[|sp|..])
    ensures StartsWith(n, subpath) && |n| > |subpath| && VisibleFileAt(d, n[|subpath|..])
  {
    var f := d.listing[i];
    var sp := subpath + f.name + "/";
    var rel := n[|subpath|..];
    assert n[..|sp|] == sp;
    assert n[..|subpath|] == sp[..|subpath|];
    assert rel[..|f.name| + 1] == f.name + "/";
    assert rel[|f.name| + 1..] == n[|sp|..];
    assert VisibleChildAt(d, i, rel);
  }

  /** Every record of a successful load satisfies `Loaded`. */
  lemma {:induction false} LoadDirectorySound(root: string, subpath: string, d: Entry)
    requires !d.File?
    ensures LoadDirectory(root, subpath, d).Ok? ==> AllLoaded(root, subpath, d, LoadDirectory(root, subpath, d).value)
    decreases d, 1
  {
    if d.Directory? {
      LoadEntriesSound(root, subpath, d, 0, map[]);
    }
  }

  /** An empty file is skipped; a file whose first line holds no FROM match stops the load. */
  lemma FirstLineOutcomes(root: string, name: string, data: string)
    requires name != [] && name[0] != '.'
    ensures data == [] ==> LoadDirectory(root, "", Directory("", [File(name, Some(data))])) == Ok(map[])
    ensures FirstLine(data).Some? && FindFirst(FirstLine(data).value, 0).None? ==>
              LoadDirectory(root, "", Directory("", [File(name, Some(data))])) == Err(NoFromInstruction(root + name))
  {
    var d := Directory("", [File(name, Some(data))]);
    assert "" + name == name;
    assert LoadEntries(root, "", d, 1, map[]) == Ok(map[]);
  }

  /** A key once in the accumulator stays in a successful load. */
  lemma {:induction false} LoadEntriesKeeps(root: string, subpath: string, d: Entry, i: nat, acc: map<string, Record>, n: string)
    requires d.Directory? && i <= |d.listing| && n in acc
    ensures LoadEntries(root, subpath, d, i, acc).Ok? ==> n in LoadEntries(root, subpath, d, i, acc).value
    decreases |d.listing| - i
  {
    if i < |d.listing| {
      var f := d.listing[i];
      var relativeFile := subpath + f.name;
      if f.name != [] {
        if f.name[0] == '.' {
          LoadEntriesKeeps(root, subpath, d, i + 1, acc, n);
        } else if !f.File? {
          var sub := LoadDirectory(root, relativeFile + "/", f);
          if sub.Ok? {
            LoadEntriesKeeps(root, subpath, d, i + 1, acc + sub.value, n);
          }
        } else if f.contents.Some? {
          match FirstLine(f.contents.value)
          case None =>
            LoadEntriesKeeps(root, subpath, d, i + 1, acc, n);
          case Some(line) =>
            match Classify(line)
            case None =>
            case Some(c) =>
              var rec := Record(relativeFile, c.parentName, root + relativeFile, c.hasInternalDependencies);
              LoadEntriesKeeps(root, subpath, d, i + 1, acc[relativeFile := rec], n);
        }
      }
    }
  }

  /** The walk from listing index `i` loads the non-empty visible file reached
      through entry `j >= i`, at its relative path. */
  lemma {:induction false} LoadEntriesComplete(root: string, subpath: string, d: Entry, i: nat, acc: map<string, Record>,
                                               j: nat, rel: string, data: string)
    requires d.Directory? && i <= j < |d.listing| && ContentChildAt(d, j, rel, data) && data != []
    ensures LoadEntries(root, subpath, d, i, acc).Ok? ==> subpath + rel in LoadEntries(root, subpath, d, i, acc).value
    decreases d, 0, |d.listing| - i
  {
    var f := d.listing[i];
    var relativeFile := subpath + f.name;
    if i < j {
      if f.name != [] {
        if f.name[0] == '.' {
          LoadEntriesComplete(root, subpath, d, i + 1, acc, j, rel, data);
        } else if !f.File? {
          var sub := LoadDirectory(root, relativeFile + "/", f);
          if sub.Ok? {
            LoadEntriesComplete(root, subpath, d, i + 1, acc + sub.value, j, rel, data);
          }
        } else if f.contents.Some? {
          match FirstLine(f.contents.value)
          case None =>
            LoadEntriesComplete(root, subpath, d, i + 1, acc, j, rel, data);
          case Some(line) =>
            match Classify(line)
            case None =>
            case Some(c) =>
              var rec := Record(relativeFile, c.parentName, root + relativeFile, c.hasInternalDependencies);
              LoadEntriesComplete(root, subpath, d, i + 1, acc[relativeFile := rec], j, rel, data);
        }
      }
    } else if f.File? {
      assert FirstLine(data).Some?;
      match Classify(FirstLine(data).value)
      case None =>
      case Some(c) =>
        var rec := Record(relativeFile, c.parentName, root + relativeFile, c.hasInternalDependencies);
        LoadEntriesKeeps(root, subpath, d, i + 1, acc[relativeFile := rec], subpath + rel);
    } else {
      var rest := rel[|f.name| + 1..];
      var sub := LoadDirectory(root, relativeFile + "/", f);
      if sub.Ok? {
        LoadDirectoryComplete(root, relativeFile + "/", f, rest, data);
        assert (relativeFile + "/") + rest == subpath + rel by {
          assert rel == rel[..|f.name| + 1] + rest;
        }
        LoadEntriesKeeps(root, subpath, d, i + 1, acc + sub.value, subpath + rel);
      }
    }
  }

  /** Completeness, the converse of `LoadDirectorySound`: a successful load
      holds every non-empty visible file of the tree, at its relative path. */
  lemma {:induction false} LoadDirectoryComplete(root: string, subpath: string, d: Entry, rel: string, data: string)
    requires ContentAt(d, rel, data) && data != []
    ensures LoadDirectory(root, subpath, d).Ok? ==> subpath + rel in LoadDirectory(root, subpath, d).value
    decreases d, 1
  {
    var j :| 0 <= j < |d.listing| && ContentChildAt(d, j, rel, data);
    LoadEntriesComplete(root, subpath, d, 0, map[], j, rel, data);
  }

  /** The walk from listing index `i` fails when entry `j >= i` leads to a
      visible file whose first line holds no FROM match. */
  lemma {:induction false} LoadEntriesFails(root: string, subpath: string, d: Entry, i: nat, acc: map<string, Record>,
                                            j: nat, rel: string, data: string)
    requires d.Directory? && i <= j < |d.listing| && ContentChildAt(d, j, rel, data)
    requires FirstLine(data).Some? && Classify(FirstLine(data).value).None?
    ensures LoadEntries(root, subpath, d, i, acc).Err?
    decreases d, 0, |d.listing| - i
  {
    var f := d.listing[i];
    var relativeFile := subpath + f.name;
    if i < j {
      if f.name != [] {
        if f.name[0] == '.' {
          LoadEntriesFails(root, subpath, d, i + 1, acc, j, rel, data);
        } else if !f.File? {
          var sub := LoadDirectory(root, relativeFile + "/", f);
          if sub.Ok? {
            LoadEntriesFails(root, subpath, d, i + 1, acc + sub.value, j, rel, data);
          }
        } else if f.contents.Some? {
          match FirstLine(f.contents.value)
          case None =>
            LoadEntriesFails(root, subpath, d, i + 1, acc, j, rel, data);
          case Some(line) =>
            match Classify(line)
            case None =>
            case Some(c) =>
              var rec := Record(relativeFile, c.parentName, root + relativeFile, c.hasInternalDependencies);
              LoadEntriesFails(root, subpath, d, i + 1, acc[relativeFile := rec], j, rel, data);
        }
      }
    } else if !f.File? {
      LoadDirectoryFails(root, relativeFile + "/", f, rel[|f.name| + 1..], data);
    }
  }

  /** A visible file anywhere in the tree whose first line holds no FROM match
      makes the whole load fail. */
  lemma {:induction false} LoadDirectoryFails(root: string, subpath: string, d: Entry, rel: string, data: string)
    requires ContentAt(d, rel, data)
    requires FirstLine(data).Some? && Classify(FirstLine(data).value).None?
    ensures LoadDirectory(root, subpath, d).Err?
    decreases d, 1
  {
    var j :| 0 <= j < |d.listing| && ContentChildAt(d, j, rel, data);
    LoadEntriesFails(root, subpath, d, 0, map[], j, rel, data);
  }
}
