/** `createDynamicDockerfile` (dockerbuild/dockerfile.go): a copy of an
    instruction file in which every internal base reference names the
    image in the registry, under the build's tag. */
module Rewriter {
  import opened Wrappers
  import opened Text
  import opened FromLine
  import opened FileSystem

  /** Line 17: the output path, the target directory and the hex digest of the
      source path; the digest function (SHA-256, hex-encoded) is a parameter. */
  function DynamicName(targetDirectory: string, sourceFilename: string, hash: string -> string): string {
    targetDirectory + "/" + hash(sourceFilename)
  }

  /** Two sources get the same output name in a directory exactly when their digests agree. */
  lemma DynamicNameDistinct(targetDirectory: string, a: string, b: string, hash: string -> string)
    ensures DynamicName(targetDirectory, a, hash) == DynamicName(targetDirectory, b, hash) <==> hash(a) == hash(b)
  {
    var p := targetDirectory + "/";
    if DynamicName(targetDirectory, a, hash) == DynamicName(targetDirectory, b, hash) {
      assert hash(a) == DynamicName(targetDirectory, a, hash)[|p|..];
      assert hash(b) == DynamicName(targetDirectory, b, hash)[|p|..];
    }
  }

  /** Line 34: the registry reference an internal match is rewritten to. */
  function Replacement(m: FromMatch, registryBasePath: string, tag: string): string {
    ForceTrailingSlash(registryBasePath) + m.role + ":" + tag
  }

  /** The contents after the first `n` matches of `ms` have been applied in
      order: an internal one replaces the first remaining occurrence of its
      group 1, an external one changes nothing. */
  function RewriteUpTo(contents: string, ms: seq<FromMatch>, n: nat, registryBasePath: string, tag: string): string
    requires n <= |ms|
  {
    if n == 0 then contents
    else
      var c := RewriteUpTo(contents, ms, n - 1, registryBasePath, tag);
      if ms[n - 1].IsInternal() then ReplaceFirst(c, ms[n - 1].image, Replacement(ms[n - 1], registryBasePath, tag)) else c
  }

  /** Lines 30-36: the matches are taken once, over the original contents. */
  function Rewritten(contents: string, registryBasePath: string, tag: string): string {
    RewriteUpTo(contents, FindAll(contents), |FindAll(contents)|, registryBasePath, tag)
  }

  lemma {:induction false} ExternalPrefixUnchanged(contents: string, ms: seq<FromMatch>, n: nat, registryBasePath: string, tag: string)
    requires n <= |ms| && forall i :: 0 <= i < n ==> !ms[i].IsInternal()
    ensures RewriteUpTo(contents, ms, n, registryBasePath, tag) == contents
  {
    if n > 0 {
      ExternalPrefixUnchanged(contents, ms, n - 1, registryBasePath, tag);
    }
  }

  /** Contents whose references are all external are written out as they are. */
  lemma ExternalOnlyUnchanged(contents: string, registryBasePath: string, tag: string)
    requires forall i :: 0 <= i < |FindAll(contents)| ==> !FindAll(contents)[i].IsInternal()
    ensures Rewritten(contents, registryBasePath, tag) == contents
  {
    ExternalPrefixUnchanged(contents, FindAll(contents), |FindAll(contents)|, registryBasePath, tag);
  }

  /** A plain file is left alone. */
  lemma NoFromUnchanged(contents: string, registryBasePath: string, tag: string)
    requires FindFirst(contents, 0).None?
    ensures Rewritten(contents, registryBasePath, tag) == contents
  {
  }

  /** With a single, internal reference, its first occurrence is replaced. */
  lemma SingleReferenceRewrite(contents: string, m: FromMatch, i: nat, registryBasePath: string, tag: string)
    requires FindAll(contents) == [m] && m.IsInternal()
    requires OccursAt(contents, m.image, i) && forall j: nat :: j < i ==> !OccursAt(contents, m.image, j)
    ensures Rewritten(contents, registryBasePath, tag) ==
              contents[..i] + Replacement(m, registryBasePath, tag) + contents[i + |m.image|..]
  {
    assert RewriteUpTo(contents, [m], 0, registryBasePath, tag) == contents;
  }

  lemma DeclaredFirstOccurrence()
    ensures OccursAt(Declared, DeclaredMatch.image, 5)
    ensures forall j: nat :: j < 5 ==> !OccursAt(Declared, DeclaredMatch.image, j)
  {
    DeclaredGroups();
    forall j: nat | j < 5 ensures !OccursAt(Declared, DeclaredMatch.image, j) {
      assert Declared[j] != '{';
    }
  }

  lemma DeclaredReplacement(registryBasePath: string)
    requires registryBasePath == "reg.io" || registryBasePath == "reg.io/"
    ensures Declared[..5] + Replacement(DeclaredMatch, registryBasePath, "v1") + Declared[21..] ==
            "FROM reg.io/base:v1"
  {
    assert ForceTrailingSlash(registryBasePath) == "reg.io/";
    assert Declared[..5] == "FROM " && Declared[21..] == "";
  }

  /** The internal declaration is pointed at the registry; a base path that
      already ends in `/` gets no second one. */
  lemma DeclaredRewrite(registryBasePath: string)
    requires registryBasePath == "reg.io" || registryBasePath == "reg.io/"
    ensures Rewritten(Declared, registryBasePath, "v1") == "FROM reg.io/base:v1"
  {
    DeclaredFindAll();
    DeclaredFirstOccurrence();
    SingleReferenceRewrite(Declared, DeclaredMatch, 5, registryBasePath, "v1");
    DeclaredReplacement(registryBasePath);
  }

  /** Lines 30-36: the loop over the matches of the original contents. */
  method RewriteContents(original: string, registryBasePath: string, tag: string) returns (fileContents: string)
    ensures fileContents == Rewritten(original, registryBasePath, tag)
  {
    fileContents := original;
    var matches := FindAll(fileContents);
    var i := 0;
    while i < |matches|
      invariant 0 <= i <= |matches|
      invariant fileContents == RewriteUpTo(original, matches, i, registryBasePath, tag)
    {
      if |matches[i].marker| > 0 {
        fileContents := ReplaceFirst(fileContents, matches[i].image, ForceTrailingSlash(registryBasePath) + matches[i].role + ":" + tag);
      }
      i := i + 1;
    }
  }

  /** The outcome of `createDynamicDockerfile` on a store's files: the path
      written and the files afterwards, or the fatal failure. */
  function DynamicFile(files: map<string, string>, faults: Faults, targetDirectory: string, sourceFilename: string,
                       registryBasePath: string, tag: string, hash: string -> string): Result<(string, map<string, string>), Fatal>
  {
    var name := DynamicName(targetDirectory, sourceFilename, hash);
    if sourceFilename !in files || sourceFilename in faults.unreadable then Err(ReadFailed(sourceFilename))
    else if name in faults.unwritable then Err(WriteFailed(name))
    else Ok((name, files[name := Rewritten(files[sourceFilename], registryBasePath, tag)]))
  }

  /** The only file `DynamicFile` adds or changes lies in the target directory. */
  lemma DynamicFileWithin(files: map<string, string>, faults: Faults, targetDirectory: string, sourceFilename: string,
                          registryBasePath: string, tag: string, hash: string -> string)
    requires DynamicFile(files, faults, targetDirectory, sourceFilename, registryBasePath, tag, hash).Ok?
    ensures var (name, after) := DynamicFile(files, faults, targetDirectory, sourceFilename, registryBasePath, tag, hash).value;
            Within(name, targetDirectory) && name in after &&
            Removed(after, targetDirectory) == Removed(files, targetDirectory)
  {
    var name := DynamicName(targetDirectory, sourceFilename, hash);
    assert StartsWith(name, targetDirectory + "/") by {
      assert name[..|targetDirectory + "/"|] == targetDirectory + "/";
    }
  }

  /** Lines 13-47. Reading the source and writing the result are the only
      effects; either failing is fatal. On success the new file holds the
      rewritten contents and its path is returned; nothing else changes, so a
      source outside the target directory is never overwritten. */
  method CreateDynamicDockerfile(store: FileStore, targetDirectory: string, sourceFilename: string,
                                 registryBasePath: string, tag: string, hash: string -> string)
    returns (r: Result<string, Fatal>)
    modifies store
    ensures var name := DynamicName(targetDirectory, sourceFilename, hash);
            && (var readable := sourceFilename in old(store.files) && sourceFilename !in store.faults.unreadable;
                && (!readable ==> r == Err(ReadFailed(sourceFilename)))
                && (readable && name in store.faults.unwritable ==> r == Err(WriteFailed(name)))
                && (readable && name !in store.faults.unwritable ==> r == Ok(name)))
            && store.files == if r.Ok?
                              then old(store.files)[name := Rewritten(old(store.files)[sourceFilename], registryBasePath, tag)]
                              else old(store.files)
    ensures DynamicFile(old(store.files), store.faults, targetDirectory, sourceFilename, registryBasePath, tag, hash) ==
            if r.Ok? then Ok((r.value, store.files)) else Err(r.error)
    ensures r.Ok? && !Within(sourceFilename, targetDirectory) ==>
              sourceFilename in store.files && store.files[sourceFilename] == old(store.files)[sourceFilename]
  {
    var dynamicDockerfileFilename := targetDirectory + "/" + hash(sourceFilename);
    assert StartsWith(dynamicDockerfileFilename, targetDirectory + "/") by {
      assert dynamicDockerfileFilename[..|targetDirectory + "/"|] == targetDirectory + "/";
    }
    var loaded := store.Load(sourceFilename);
    if loaded.None? {
      return Err(ReadFailed(sourceFilename));
    }
    var fileContents := RewriteContents(loaded.value, registryBasePath, tag);
    var ok := store.WriteFile(dynamicDockerfileFilename, fileContents);
    if !ok {
      return Err(WriteFailed(dynamicDockerfileFilename));
    }
    return Ok(dynamicDockerfileFilename);
  }
}
