/** Deployments (dockerbuild/deployments.go): listing the deployment files
    below the deployment directory, and building and pushing one of them. */
module Deployments {
  import opened Wrappers
  import opened Text
  import opened FileSystem
  import opened Rewriter
  import opened Registry
  import opened Scheduler

  /** Lines 64-90 as a value: the deployments of directory `d` (at `subpath`
      below `root`) from listing index `i` on, after those in `acc`. */
  function DeploymentEntries(root: string, subpath: string, d: Entry, i: nat, acc: seq<string>): Result<seq<string>, Fatal>
    requires d.Directory? && i <= |d.listing|
    decreases d, 0, |d.listing| - i
  {
    if i == |d.listing| then Ok(acc)
    else
      var f := d.listing[i];
      var relativeFile := subpath + f.name;
      if f.name == [] then Err(EmptyEntryName(root + subpath))
      else if f.name[0] == '.' then DeploymentEntries(root, subpath, d, i + 1, acc)
      else if f.File? then DeploymentEntries(root, subpath, d, i + 1, acc + [relativeFile])
      else
        match FolderDeployments(root, relativeFile + "/", f)
        case Err(e) => Err(e)
        case Ok(sub) => DeploymentEntries(root, subpath, d, i + 1, acc + sub)
  }

  /** The deployments of the directory `d` at `subpath`, depth first in listing order. */
  function FolderDeployments(root: string, subpath: string, d: Entry): Result<seq<string>, Fatal>
    requires !d.File?
    decreases d, 1
  {
    if d.Unlistable? then Err(ListingFailed(root + subpath))
    else DeploymentEntries(root, subpath, d, 0, [])
  }

  /** `getFolderDeployments`: lists `d`, skips hidden entries, appends each file
      as `subpath + name` and splices in the deployments of each other entry. */
  method GetFolderDeployments(root: string, subpath: string, d: Entry) returns (r: Result<seq<string>, Fatal>)
    requires !d.File?
    ensures r == FolderDeployments(root, subpath, d)
    decreases d
  {
    if d.Unlistable? {
      return Err(ListingFailed(root + subpath));
    }
    var deployments: seq<string> := [];
    var i := 0;
    while i < |d.listing|
      invariant 0 <= i <= |d.listing|
      invariant DeploymentEntries(root, subpath, d, i, deployments) == FolderDeployments(root, subpath, d)
    {
      var f := d.listing[i];
      var relativeFile := subpath + f.name;
      if f.name == [] {
        return Err(EmptyEntryName(root + subpath));
      }
      if f.name[0] != '.' {
        if f.File? {
          deployments := deployments + [relativeFile];
        } else {
          var sub := GetFolderDeployments(root, relativeFile + "/", f);
          if sub.Err? {
            return Err(sub.error);
          }
          deployments := deployments + sub.value;
        }
      }
      i := i + 1;
    }
    return Ok(deployments);
  }

  /** `GetDeployments` (lines 58-62): the deployments of the whole directory,
      which are exactly its visible files. */
  method GetDeployments(root: string, d: Entry) returns (r: Result<seq<string>, Fatal>)
    requires !d.File?
    ensures r == FolderDeployments(root, "", d)
    ensures r.Ok? ==> forall n :: n in r.value <==> VisibleFileAt(d, n)
  {
    r := GetFolderDeployments(root, "", d);
    FolderDeploymentsExact(root, "", d);
  }

  /** A visible file of `d` reached through listing index `i` or later. */
  ghost predicate VisibleFrom(d: Entry, i: nat, rel: string)
    requires d.Directory?
  {
    exists j :: i <= j < |d.listing| && VisibleChildAt(d, j, rel)
  }

  lemma PrefixSplit(n: string, a: string, b: string)
    ensures StartsWith(n, a + b) <==> StartsWith(n, a) && StartsWith(n[|a|..], b)
    ensures StartsWith(n, a + b) ==> n[|a + b|..] == n[|a|..][|b|..]
  {
    if StartsWith(n, a + b) {
      assert n[..|a|] == (a + b)[..|a|] == a;
      assert n[|a|..][..|b|] == n[|a|..|a + b|] == (a + b)[|a|..] == b;
    }
    if StartsWith(n, a) && StartsWith(n[|a|..], b) {
      assert n[..|a + b|] == n[..|a|] + n[|a|..][..|b|];
    }
  }

  /** Child `i` of `d` contributes, through `sub`, exactly the visible files below it. */
  lemma ChildDeployments(root: string, subpath: string, d: Entry, i: nat, sub: seq<string>, n: string)
    requires d.Directory? && i < |d.listing|
    requires d.listing[i].name != [] && d.listing[i].name[0] != '.'
    requires d.listing[i].File? ==> sub == [subpath + d.listing[i].name]
    requires !d.listing[i].File? ==>
               var sp := subpath + d.listing[i].name + "/";
               forall m :: m in sub <==> StartsWith(m, sp) && VisibleFileAt(d.listing[i], m[|sp|..])
    ensures n in sub <==> StartsWith(n, subpath) && VisibleChildAt(d, i, n[|subpath|..])
  {
    var f := d.listing[i];
    if f.File? {
      if n == subpath + f.name {
        assert n[..|subpath|] == subpath && n[|subpath|..] == f.name;
      }
      if StartsWith(n, subpath) && n[|subpath|..] == f.name {
        assert n == n[..|subpath|] + n[|subpath|..];
      }
    } else {
      PrefixSplit(n, subpath, f.name + "/");
      assert subpath + f.name + "/" == subpath + (f.name + "/");
    }
  }

  /** A run from index `i` adds to `acc` exactly the visible files reached from there. */
  lemma {:induction false} EntriesExact(root: string, subpath: string, d: Entry, i: nat, acc: seq<string>)
    requires d.Directory? && i <= |d.listing|
    ensures var r := DeploymentEntries(root, subpath, d, i, acc);
            r.Ok? ==> forall n :: n in r.value <==> n in acc || (StartsWith(n, subpath) && VisibleFrom(d, i, n[|subpath|..]))
    decreases d, 0, |d.listing| - i
  {
    if i < |d.listing| {
      var f := d.listing[i];
      var relativeFile := subpath + f.name;
      if f.name != [] && DeploymentEntries(root, subpath, d, i, acc).Ok? {
        if f.name[0] == '.' {
          EntriesExact(root, subpath, d, i + 1, acc);
          forall n ensures VisibleFrom(d, i, n) <==> VisibleFrom(d, i + 1, n) {
            assert !VisibleChildAt(d, i, n);
          }
        } else {
          var sub := if f.File? then [relativeFile] else FolderDeployments(root, relativeFile + "/", f).value;
          if !f.File? {
            FolderDeploymentsExact(root, relativeFile + "/", f);
          }
          EntriesExact(root, subpath, d, i + 1, acc + sub);
          forall n ensures n in sub <==> StartsWith(n, subpath) && VisibleChildAt(d, i, n[|subpath|..]) {
            ChildDeployments(root, subpath, d, i, sub, n);
          }
        }
      }
    }
  }

  /** Every deployment listed is a visible file below `subpath`, and every such file is listed. */
  lemma {:induction false} FolderDeploymentsExact(root: string, subpath: string, d: Entry)
    requires !d.File?
    ensures var r := FolderDeployments(root, subpath, d);
            r.Ok? ==> forall n :: n in r.value <==> StartsWith(n, subpath) && VisibleFileAt(d, n[|subpath|..])
    decreases d, 1
  {
    if d.Directory? {
      EntriesExact(root, subpath, d, 0, []);
    }
  }

  /** Listing order is kept and nothing is sorted; hidden entries are skipped;
      an empty directory has no deployments. */
  lemma DeploymentOrder()
    ensures FolderDeployments("", "", Directory("", [File("b", None), Directory("a", [File("x", None)]), File(".h", None)])) == Ok(["b", "a/x"])
    ensures FolderDeployments("", "", Directory("", [])) == Ok([])
  {
    var a := Directory("a", [File("x", None)]);
    var d := Directory("", [File("b", None), a, File(".h", None)]);
    var ax: seq<string> := ["a/x"];
    var bax: seq<string> := ["b", "a/x"];
    assert |a.listing| == 1 && |d.listing| == 3;
    assert DeploymentEntries("", "a/", a, 1, ax) == Ok(ax);
    assert "a/" + "x" == "a/x" && [] + ["a/x"] == ax;
    assert DeploymentEntries("", "a/", a, 0, []) == Ok(ax);
    assert DeploymentEntries("", "", d, 3, bax) == Ok(bax);
    assert DeploymentEntries("", "", d, 2, bax) == Ok(bax);
    assert "" + "a" + "/" == "a/" && ["b"] + ax == bax;
    assert DeploymentEntries("", "", d, 1, ["b"]) == Ok(bax);
    assert "" + "b" == "b" && [] + ["b"] == ["b"];
  }

  /** How `BuildDeployment` ends. */
  datatype DeployOutcome =
    | Exited(code: nat)            // `os.Exit(code)` before anything is built
    | Crashed(fatal: Fatal)        // a panic while creating the dynamic instruction file
    | Completed(events: seq<Event>)

  /** Line 30: the deployment's image, under the registry's `deployments/` namespace. */
  function DeploymentImage(registryBasePath: string, deploymentName: string, deploymentTag: string): string {
    registryBasePath + "/deployments/" + deploymentName + ":" + deploymentTag
  }

  /** `BuildDeployment` (lines 14-55). An empty registry path ends the process
      with status 1, the exit of logrus's `Fatal` at line 18 (so the
      `os.Exit(100)` after it is never reached), and a missing deployment file
      with code 101, before anything is built. A file that exists but cannot
      be read passes that test and then crashes the rewrite with `ReadFailed`,
      as an unwritable dynamic file crashes it with `WriteFailed`. Otherwise the dynamic file is written under
      `tempDir + "/"` with its internal bases named by the build `tag`, the
      image is tagged with `deploymentTag` and built without the cache and pushed exactly
      when the build succeeds (`pushToRemote` is never consulted), and the
      temporary directory is removed whatever the build's outcome. */
  method BuildDeployment(store: FileStore, deploymentDirectory: string, registryBasePath: string, tag: string,
                         deploymentTag: string, deploymentName: string, pushToRemote: bool, tempDir: string,
                         hash: string -> string, build: seq<string> -> bool, push: string -> nat -> Option<string>)
    returns (r: DeployOutcome)
    modifies store
    ensures registryBasePath == "" ==> r == Exited(1) && store.files == old(store.files)
    ensures registryBasePath != "" && deploymentDirectory + deploymentName !in old(store.files) ==>
              r == Exited(101) && store.files == old(store.files)
    ensures registryBasePath != "" && deploymentDirectory + deploymentName in old(store.files) ==>
              var dockerfile := DynamicName(tempDir + "/", deploymentDirectory + deploymentName, hash);
              var image := DeploymentImage(registryBasePath, deploymentName, deploymentTag);
              var args := ["build", "--no-cache", "-t", image, "-f", dockerfile, "."];
              if deploymentDirectory + deploymentName in store.faults.unreadable then
                r == Crashed(ReadFailed(deploymentDirectory + deploymentName)) && store.files == old(store.files)
              else if dockerfile in store.faults.unwritable then
                r == Crashed(WriteFailed(dockerfile)) && store.files == old(store.files)
              else
                && r == Completed([Built(deploymentName, args, build(args))] +
                                  (if build(args) then [Pushed(image, PushError(push(image)), PushAttempts(push(image)))] else []))
                && store.files == Removed(old(store.files), tempDir)
  {
    if registryBasePath == "" {
      return Exited(1);
    }
    var deploymentFilename := deploymentDirectory + deploymentName;
    if !store.IsFile(deploymentFilename) {
      return Exited(101);
    }
    ghost var files0 := store.files;
    var created := CreateDynamicDockerfile(store, tempDir + "/", deploymentFilename, registryBasePath, tag, hash);
    if created.Err? {
      return Crashed(created.error);
    }
    var dockerfile := created.value;
    DynamicFileWithin(files0, store.faults, tempDir + "/", deploymentFilename, registryBasePath, tag, hash);
    var imageName := DeploymentImage(registryBasePath, deploymentName, deploymentTag);
    var arguments := ["build", "--no-cache", "-t", imageName, "-f", dockerfile, "."];
    var events := [Built(deploymentName, arguments, build(arguments))];
    if build(arguments) {
      var err, commands, warnings := PushImageToRegistry(imageName, push(imageName));
      events := events + [Pushed(imageName, err, |commands|)];
    }
    TempDirectoryCovers(store.files, files0, tempDir);
    store.RemoveDirectory(tempDir);
    return Completed(events);
  }

  /** Removing `tempDir` also removes what lies in `tempDir + "/"`. */
  lemma TempDirectoryCovers(after: map<string, string>, before: map<string, string>, tempDir: string)
    requires Removed(after, tempDir + "/") == Removed(before, tempDir + "/")
    ensures Removed(after, tempDir) == Removed(before, tempDir)
  {
    RemovedNested(after, tempDir, "/");
    RemovedNested(before, tempDir, "/");
  }
}
