/** The filesystem as the build code sees it: directory trees it lists, and a
    store of file contents it reads, writes and removes. */
module FileSystem {
  import opened Wrappers
  import opened Text

  /** An entry of a directory listing. */
  datatype Entry =
    | File(name: string, contents: Option<string>)   // None: reading the file fails
    | Directory(name: string, listing: seq<Entry>)
    | Unlistable(name: string)                       // a directory whose listing fails

  /** A failure that ends the process (a panic or a fatal log call). */
  datatype Fatal =
    | ListingFailed(path: string)
    | ReadFailed(path: string)
    | WriteFailed(path: string)
    | EmptyEntryName(path: string)
    | NoFromInstruction(path: string)
    | UserLookupFailed(message: string)

  /** Directory `d` holds, at relative path `rel`, a file reached through
      entries whose names are non-empty and do not start with `.`. */
  ghost predicate VisibleFileAt(d: Entry, rel: string)
    decreases d, 1
  {
    d.Directory? && exists i :: 0 <= i < |d.listing| && VisibleChildAt(d, i, rel)
  }

  /** The same, through the entry at listing index `i`. */
  ghost predicate VisibleChildAt(d: Entry, i: nat, rel: string)
    requires d.Directory? && i < |d.listing|
    decreases d, 0
  {
    var f := d.listing[i];
    f.name != [] && f.name[0] != '.' &&
    ((f.File? && rel == f.name) ||
     (!f.File? && StartsWith(rel, f.name + "/") && VisibleFileAt(f, rel[|f.name| + 1..])))
  }

  /** Directory `d` holds, at relative path `rel`, a visible file whose
      contents read as `data`. */
  ghost predicate ContentAt(d: Entry, rel: string, data: string)
    decreases d, 1
  {
    d.Directory? && exists i :: 0 <= i < |d.listing| && ContentChildAt(d, i, rel, data)
  }

  /** The same, through the entry at listing index `i`. */
  ghost predicate ContentChildAt(d: Entry, i: nat, rel: string, data: string)
    requires d.Directory? && i < |d.listing|
    decreases d, 0
  {
    var f := d.listing[i];
    f.name != [] && f.name[0] != '.' &&
    ((f.File? && rel == f.name && f.contents == Some(data)) ||
     (!f.File? && StartsWith(rel, f.name + "/") && ContentAt(f, rel[|f.name| + 1..], data)))
  }

  /** `p` is `dir` or lies below it. */
  predicate Within(p: string, dir: string) {
    p == dir || StartsWith(p, dir + "/")
  }

  /** The paths whose reads fail although the file exists, and the paths
      whose writes fail. */
  datatype Faults = Faults(unreadable: set<string>, unwritable: set<string>)

  /** The files the build steps read and write, keyed by path. */
  class FileStore {
    var files: map<string, string>
    const faults: Faults

    constructor (files: map<string, string>, faults: Faults)
      ensures this.files == files && this.faults == faults
    {
      this.files := files;
      this.faults := faults;
    }

    /** `IsFile`: the path exists as a regular file, readable or not. */
    predicate IsFile(path: string)
      reads this
    {
      path in files
    }

    /** `LoadFileString`: the contents of a regular file, unless reading it fails. */
    function Load(path: string): (r: Option<string>)
      reads this
      ensures r.Some? <==> IsFile(path) && path !in faults.unreadable
      ensures r.Some? ==> r.value == files[path]
    {
      if path in files && path !in faults.unreadable then Some(files[path]) else None
    }

    /** `WriteFile`: replaces or creates the file unless the path cannot be written. */
    method WriteFile(path: string, data: string) returns (ok: bool)
      modifies this
      ensures ok <==> path !in faults.unwritable
      ensures files == if ok then old(files)[path := data] else old(files)
    {
      ok := path !in faults.unwritable;
      if ok {
        files := files[path := data];
      }
    }

    /** `RemoveDirectory(dir, true)`: everything at or below `dir` is gone, the rest stays. */
    method RemoveDirectory(dir: string)
      modifies this
      ensures files == Removed(old(files), dir)
    {
      files := Removed(files, dir);
    }
  }

  /** The store without the subtree at `dir`. */
  function Removed(files: map<string, string>, dir: string): (r: map<string, string>)
    ensures forall p :: p in r <==> p in files && !Within(p, dir)
    ensures forall p :: p in r ==> r[p] == files[p]
  {
    map p | p in files && !Within(p, dir) :: files[p]
  }

  /** A path within `dir + sub`, where `sub` starts with a slash, is within `dir`. */
  lemma WithinNested(p: string, dir: string, sub: string)
    requires |sub| > 0 && sub[0] == '/'
    ensures Within(p, dir + sub) ==> Within(p, dir)
  {
    if Within(p, dir + sub) {
      assert p[..|dir| + 1] == (dir + sub)[..|dir| + 1] == dir + "/";
    }
  }

  /** Removing `dir` after `dir + sub` is removing `dir`. */
  lemma RemovedNested(files: map<string, string>, dir: string, sub: string)
    requires |sub| > 0 && sub[0] == '/'
    ensures Removed(Removed(files, dir + sub), dir) == Removed(files, dir)
  {
    forall p ensures Within(p, dir + sub) ==> Within(p, dir) {
      WithinNested(p, dir, sub);
    }
  }
}
