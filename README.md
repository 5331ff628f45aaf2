# container-factory: a Dafny model of the Docker image build core

container-factory builds a forest of Docker base images from a directory of
instruction files (Dockerfiles). Each file's first `FROM` line says whether
the file extends another image kept in the same directory. That image is
written as `FROM {{ local }}/<name>`; any other `FROM` names an external image.

The tool does four things:

- It groups the files by parent and marks every file reachable from an
  externally rooted one as buildable. The files that are not reachable are
  reported as orphans.
- It builds the images parent first. Before each image is handed to
  `docker build`, its internal `FROM` references are rewritten to point at the
  registry. A child is built only after its parent built successfully, and each
  built image is pushed with up to three attempts.
- It enumerates and builds "deployments": single files under a deployment
  root, published under a `deployments/` namespace.
- Its web front-end renders the hierarchy as indented text.

This project models that core in Dafny 4.11 and proves what it promises.
Modules follow the Go packages and files:

| module | models |
|---|---|
| `Wrappers` | `Option` and `Result` |
| `Text` | string helpers the Go code calls: `strings.Replace(s, pat, rep, 1)`, `filesystem.ForceTrailingSlash`, ASCII `strings.ToLower` |
| `FileSystem` | listed directory trees (`Entry`), a `FileStore` class for file contents read, written and removed during builds, and the `Fatal` panics and fatal log calls |
| `FromLine` | the `fromSplitRegex` pattern of `dockerbuild/variables.go`, as a hand-written leftmost-first matcher whose typed match carries the three capture groups |
| `DockerBuild` | the records of `dockerbuild/dockerbuild.go`, `isValidDockerfile` and `getDefaultTag` |
| `Inventory` | `loadBaseImageDockerfiles`: the recursive walk and the classification of each file's first line |
| `Hierarchy` | `buildDockerImageHeirarchy` and `getChildImages`: grouping by parent, marking buildable records in place, and collecting orphans |
| `Registry` | `pushImageToRegistry`, the three-attempt push |
| `Rewriter` | `createDynamicDockerfile`: the hash-derived file name and the replace-first-occurrence loop |
| `Scheduler` | `buildBaseImagesWithChildren` and `BuildBaseImages`, run sequentially in the order the Go code spawns its work |
| `Deployments` | `getFolderDeployments`, `GetDeployments` and `BuildDeployment` |
| `Routes` | `getImageChildrenString` and the plain-text branch of `renderBaseImagesList` |

## How the model is set up

- **Strings.** Go strings are `seq<char>` with one character per byte. The
  regex classes are RE2's ASCII ones: `\s` is `[\t\n\f\r ]` and `\w` is
  `[0-9A-Za-z_]`. The arrow in `webserver/routes.go:88` is stored byte for
  byte as a seven-character constant, `Routes.Arrow`.
- **Changed in place.** A `dockerfile` record is the class
  `DockerBuild.Dockerfile`, with constant fields and a mutable `isBuildable`.
  `getChildImages` (`Hierarchy.GetChildImages`) marks the records it visits.
  The files the build writes and removes live in the `FileSystem.FileStore`
  class.
- **Loops.** Each loop the Go code has is a `while` loop in a method, proved
  against a function that states the same result as a value. For example,
  `GetChildImages` is proved against `Forest`, and `RewriteContents` against
  `Rewritten`. `GetFolderDeployments` is proved against `FolderDeployments`,
  and `RenderBaseImagesList` against `ListingText`. The lemmas then prove the
  source's promises about those functions.
- **Termination.** `getChildImages` and the scheduler recurse on the parent
  map. They terminate because the model carries the chain of ancestors as a
  ghost `path` and decreases the set of names not yet on it. A cycle such as
  an image naming itself as its parent can never be reached from the root. It
  therefore ends up among the orphans (`Hierarchy.SelfParentUnrooted`).
- **Oracles.** Subprocesses, hashing and the current user are parameters:
  - `build(args)`: did `docker build` succeed;
  - `push(image)(k)`: the outcome of the k-th push of an image;
  - `hash(path)`: the hex SHA-256 of a path;
  - `currentUser`: the result of the `user.Current()` lookup.
- **Trace.** The scheduler records a trace of `Built` and `Pushed` events. The
  scheduler properties are stated over this trace.

### Where the model follows the code

- **Deployment order.** `getFolderDeployments` does not sort: it returns
  files depth-first in listing order (`dockerbuild/deployments.go:73-89`).
  `Deployments.DeploymentOrder` shows an unsorted result.
- **Deployment builds differ from base-image builds.** `BuildDeployment`:
  - passes `--no-cache` unconditionally;
  - ignores its `pushToRemote` parameter and pushes whenever the build
    succeeds;
  - builds the image name as `base + "/deployments/" + name` without
    `ForceTrailingSlash`.
- **Deployment rewrite.** `BuildDeployment` calls a two-argument method form
  of `createDynamicDockerfile`. The model uses the four-argument function of
  `dockerbuild/dockerfile.go` with the registry base path and the build tag.
- **Deployment tag.** The deployment tag is a parameter, set by the caller
  (`webserver/routes.go:27`).
- **First-line failures.** A first line with no `FROM` match indexes a nil
  match slice in `loadBaseImageDockerfiles`. The load therefore fails
  (`NoFromInstruction`) instead of skipping the file. A file whose first
  `ReadLine` fails, as an empty file does, is skipped.
- **A panic skips the cleanup.** A panic inside the build (an unreadable or
  unwritable Dockerfile) unwinds past the deferred `RemoveDirectory`. The model
  therefore states the temp-directory cleanup only for runs that finish.
- **Exit status of an empty registry path.** `BuildDeployment` calls logrus's
  `Fatal` at `dockerbuild/deployments.go:18`. Every logger in the program is
  `logrus.New()`, whose `Fatal` exits the process with status 1. The model
  therefore ends with `Exited(1)`: the `os.Exit(100)` at line 19 is never
  reached.

## Model

| member | source | states |
|---|---|---|
| FromLine.SkipSpaces | dockerbuild/variables.go:24 | the `\s+` runs of the pattern: the end of the maximal whitespace run starting at `i` |
| FromLine.SkipSpacesAt | dockerbuild/variables.go:24 | any position ending a whitespace run that is not followed by whitespace is the one `SkipSpaces` finds (greedy matching is unique) |
| FromLine.SkipRefChars | dockerbuild/variables.go:24 | the role token run `[\w\-\_\/\:\.\{\}]+`: the end of the maximal run of token characters |
| FromLine.SkipRefCharsAt | dockerbuild/variables.go:24 | the maximal token run is unique: any position ending such a run is the one found |
| FromLine.MarkerEnd | dockerbuild/variables.go:24 | a marker is found only where the text is `{{`, whitespace, `local`, whitespace, `}}/` |
| FromLine.MarkerEndComplete | dockerbuild/variables.go:24 | every `{{ <ws> local <ws> }}/` at position `j` is found, with its exact end |
| FromLine.Steps | dockerbuild/variables.go:24 | a marker laid out at given positions (`{{` at j, `local` at k, `}}/` at l, whitespace between) ends at l + 3 |
| FromLine.MatchFrom | dockerbuild/variables.go:23-24 | a match at `p` starts with `FROM` and whitespace; group 1 is group 2 followed by group 3; group 3 is a non-empty token run; at most one trailing whitespace character is consumed |
| FromLine.MatchAt | dockerbuild/variables.go:24 | a match exists at `p` exactly when the pattern can start there, and it then has the group structure above |
| FromLine.FindFirst | dockerbuild/base-images.go:181 | `FindStringSubmatch`: the match lies inside the text from the search start |
| FromLine.FindFirstSound | dockerbuild/base-images.go:181 | the match found is the pattern's match at its start position |
| FromLine.FindFirstLeftmost | dockerbuild/variables.go:24 | the pattern is unanchored and the leftmost match wins: no match starts before the one found, and none at all when nothing is found |
| FromLine.FindAllFrom | dockerbuild/dockerfile.go:30 | `FindAllStringSubmatch(s, -1)`: empty exactly when there is no match; the first element is the leftmost match; all matches lie in the text |
| FromLine.FindAllSuccessor | dockerbuild/dockerfile.go:30 | successive matches do not overlap: each next match is the leftmost one after the previous match ends |
| FromLine.FindAllSound | dockerbuild/dockerfile.go:30 | every match listed is a real match at its position |
| FromLine.FindAllComplete | dockerbuild/dockerfile.go:30 | every position where the pattern matches is covered by a listed match: all FROM lines are found, not just the first |
| FromLine.MarkerIsTaken | dockerbuild/variables.go:24 | a `{{ local }}/` marker followed by a token character is taken as group 2, so the match is internal with that marker |
| FromLine.MatchAtParts | dockerbuild/variables.go:24 | a match that runs to the end of the line has exactly the positions and groups computed from the runs |
| FromLine.FindFirstHere | dockerbuild/base-images.go:181 | a match at the search start is the one found |
| FromLine.CompactRuns | dockerbuild/variables.go:24 | in `FROM {{local}}/x` no marker is recognised, and the token run covers `{{local}}/x` |
| FromLine.CompactRole | dockerbuild/variables.go:24 | the token run in `FROM {{local}}/x` is `{{local}}/x` |
| FromLine.CompactMarkerIsExternal | dockerbuild/variables.go:24 | without inner whitespace `{{local}}/x` is not internal: empty marker, group 3 is the whole text |
| FromLine.DeclaredMarker | dockerbuild/variables.go:24 | in `FROM {{ local }}/base` the marker ends at position 17 |
| FromLine.DeclaredRuns | dockerbuild/variables.go:24 | in `FROM {{ local }}/base` the whitespace, marker and token runs are at positions 4-5, 5-17 and 17-21 |
| FromLine.DeclaredGroups | dockerbuild/variables.go:24 | the groups of `FROM {{ local }}/base` are the marker `{{ local }}/` and the role `base` |
| FromLine.InternalDeclaration | dockerbuild/variables.go:23-24 | `FROM {{ local }}/base` is internal with marker `{{ local }}/` and role `base` |
| FromLine.DeclaredFindAll | dockerbuild/dockerfile.go:30 | `FROM {{ local }}/base` has exactly one match |
| Text.IndexFrom | dockerbuild/dockerfile.go:34 | the first occurrence of a pattern at or after `k`, or none anywhere after `k` |
| Text.ReplaceFirst | dockerbuild/dockerfile.go:34 | `strings.Replace(s, pat, rep, 1)`: unchanged without an occurrence, otherwise the first occurrence replaced |
| Text.ForceTrailingSlash | dockerbuild/base-images.go:57 | the result ends in `/`, extends its input by at most one character, and is the input when it already ends in `/` |
| Text.ForceTrailingSlashIdempotent | dockerbuild/base-images.go:57 | forcing a trailing slash twice is forcing it once |
| Text.ToLower | dockerbuild/dockerbuild.go:48 | ASCII lower-casing character by character, length preserved |
| DockerBuild.Dockerfile.constructor | dockerbuild/base-images.go:190-195 | a new record carries the given name, parent, file name and flag and is not yet buildable |
| DockerBuild.IsValidDockerfile | dockerbuild/dockerbuild.go:47-52 | valid exactly when the name does not start with `.` and does not lower-case to `readme.md` |
| DockerBuild.ReadmeSpellings | dockerbuild/dockerbuild.go:47-52 | `README.md`, `ReadMe.MD` and `.gitignore` are invalid; `base` and `readme.txt` are valid |
| DockerBuild.DefaultTag | dockerbuild/dockerbuild.go:36-45 | a non-empty tag is returned unchanged; an empty one becomes the user name; it fails exactly when the tag is empty and the user lookup fails |
| FileSystem.FileStore.Load | dockerbuild/dockerfile.go:25-28 | reading succeeds exactly for existing files that are readable, and yields their contents; existence (`IsFile`) is separate from readability |
| FileSystem.FileStore.WriteFile | dockerbuild/dockerfile.go:39-44 | a write succeeds exactly when the path is writable, and only then stores the data |
| FileSystem.FileStore.RemoveDirectory | dockerbuild/deployments.go:54 | removal deletes exactly the files inside the directory |
| FileSystem.Removed | dockerbuild/base-images.go:32 | the files kept are exactly those outside the directory, with their contents |
| FileSystem.WithinNested | dockerbuild/deployments.go:27-28 | a file inside `dir + "/..."` is inside `dir` |
| FileSystem.RemovedNested | dockerbuild/deployments.go:27-28 | removing a subdirectory, then its parent, is removing the parent |
| Inventory.LineEnd | dockerbuild/base-images.go:179 | the first newline at or after `i`, or the end of the data |
| Inventory.FirstLine | dockerbuild/base-images.go:177-180 | `ReadLine` fails exactly on empty data; otherwise the line is a prefix of the data, has no newline and fits the 4096-byte buffer |
| Inventory.FirstLineOfText | dockerbuild/base-images.go:177-180 | a short line ended by `\n` or `\r\n` is returned without its terminator |
| Inventory.FirstLineOfLongLine | dockerbuild/base-images.go:177-180 | a first line longer than the buffer is cut at the buffer's size |
| Inventory.Classify | dockerbuild/base-images.go:181-188 | a line is classified exactly when it has a `FROM` match |
| Inventory.ClassifyGroups | dockerbuild/base-images.go:181-188 | internal exactly when the marker group is non-empty; parent is the role token (the marker removed once), else `""`; an internal parent is non-empty |
| Inventory.ReplaceMarker | dockerbuild/base-images.go:187 | removing the marker once from group 1 leaves group 3 |
| Inventory.Merge | dockerbuild/base-images.go:167-169 | merging a subdirectory's records adds them all, the later ones winning |
| Inventory.LoadBaseImageDockerfiles | dockerbuild/base-images.go:146-201 | the records loaded are exactly those of the recursive walk, failures included, each a fresh record not yet buildable |
| Inventory.LoadEntriesSound | dockerbuild/base-images.go:157-198 | every record loaded is a visible file of the directory, keyed and named by its relative path, with file name root + path, its parent set exactly when internal |
| Inventory.SubdirectoryFile | dockerbuild/base-images.go:165-168 | a visible file of a visible subdirectory, at `subpath + name + "/"`, is a visible file of the directory |
| Inventory.LoadDirectorySound | dockerbuild/base-images.go:146-201 | the same for a whole directory tree |
| Inventory.FirstLineOutcomes | dockerbuild/base-images.go:177-184 | an empty file is skipped; a first line without `FROM` makes the load fail |
| Inventory.LoadEntriesKeeps | dockerbuild/base-images.go:157-198 | a record already collected stays in a successful load |
| Inventory.LoadDirectoryComplete | dockerbuild/base-images.go:146-201 | a successful load holds every non-empty visible file of the tree, at its relative path (the converse of soundness) |
| Inventory.LoadDirectoryFails | dockerbuild/base-images.go:177-184 | a visible file anywhere in the tree whose first line has no `FROM` match makes the whole load fail |
| Hierarchy.GroupByParent | dockerbuild/base-images.go:105-113 | every loaded record is in exactly one list, the one of its parent if internal, else of `""`; each list holds only its own records, once each |
| Hierarchy.GroupStep | dockerbuild/base-images.go:107-113 | appending one record to its parent's list keeps the grouping invariant |
| Hierarchy.ChildExtendsPath | dockerbuild/base-images.go:138 | a child is not already an ancestor of itself on the path, so the recursion makes progress |
| Hierarchy.NotOnPath | dockerbuild/base-images.go:138 | a child of the last path element is none of the path's elements |
| Hierarchy.MarkStep | dockerbuild/base-images.go:134-139 | marking child `i`, then its subtree, extends the marks of children before `i` by child `i` and its descendants |
| Hierarchy.MarkAll | dockerbuild/base-images.go:134-140 | marking all the children and their subtrees marks exactly the descendants of the parent |
| Hierarchy.MarkBuildable | dockerbuild/base-images.go:135 | setting `isBuildable` on one record changes that record's mark and no other |
| Hierarchy.GetChildImages | dockerbuild/base-images.go:130-143 | the result is the forest of the children in list order, each with its own children; exactly the descendants are newly marked buildable |
| Hierarchy.MarkChild | dockerbuild/base-images.go:134-139 | one child's node is its name with its subtree, and it and its descendants are marked |
| Hierarchy.ForestStep | dockerbuild/base-images.go:136-139 | the forest from child `i` on is child `i`'s node followed by the forest from `i + 1` |
| Hierarchy.DescendsUnfold | dockerbuild/base-images.go:130-143 | a name descends from `p` exactly when it is a child of `p` or descends from one |
| Hierarchy.ForestNamesAreDescendants | dockerbuild/base-images.go:130-143 | the names in the returned forest are exactly the descendants of the parent |
| Hierarchy.ForestFromNames | dockerbuild/base-images.go:134-140 | the names in the forest from child `i` on are exactly those children and their descendants |
| Hierarchy.CollectOrphans | dockerbuild/base-images.go:117-125 | the orphans are exactly the records not marked buildable, once each, with their raw parent names |
| Hierarchy.BuildDockerImageHierarchy | dockerbuild/base-images.go:103-128 | load failures are passed on; a record is buildable exactly when it is rooted in an external image; buildable and orphaned partition the loaded records |
| Hierarchy.SelfParentUnrooted | dockerbuild/base-images.go:107-125 | an image naming itself as parent is never rooted, so it is an orphan |
| Hierarchy.MissingParentUnrooted | dockerbuild/base-images.go:107-125 | an image whose parent was not loaded is never rooted |
| Hierarchy.SampleHierarchy | dockerbuild/base-images.go:103-128 | an external base and its internal child are rooted; a missing parent and a self-loop are not |
| Hierarchy.AncestorsOnPath | dockerbuild/base-images.go:130-143 | every ancestor of an element of the ancestor chain lies earlier on the chain |
| Hierarchy.AboveChild | dockerbuild/base-images.go:130-143 | every ancestor of a child is on the chain leading to it |
| Hierarchy.ChainComparable | dockerbuild/base-images.go:107-113 | two ancestors of one image are equal or one descends from the other (each record has one parent) |
| Hierarchy.NoSelfDescent | dockerbuild/base-images.go:130-143 | an image reached from the root is not its own descendant |
| Hierarchy.SiblingsApart | dockerbuild/base-images.go:134-140 | no image lies in the subtrees of two different siblings |
| Registry.FirstSuccess | dockerbuild/docker-registry.go:18-22 | the index of the first successful attempt, 3 if none, with all earlier attempts failed |
| Registry.FailureWarnings | dockerbuild/docker-registry.go:24-27 | one warning per failed attempt, with remaining retries 2, 1, 0 in order |
| Registry.PushImageToRegistry | dockerbuild/docker-registry.go:9-31 | every command is `push <image>`; success exactly when an attempt succeeds; attempts = first success + 1, else 3 with the last error returned; one warning per failure |
| Registry.SecondAttemptSucceeds | dockerbuild/docker-registry.go:18-27 | a failure followed by a success makes two attempts and one warning with 2 retries left |
| Rewriter.DynamicNameDistinct | dockerbuild/dockerfile.go:15-17 | two sources get the same output name in a directory exactly when their hashes agree |
| Rewriter.ExternalPrefixUnchanged | dockerbuild/dockerfile.go:32-36 | matches without a marker replace nothing |
| Rewriter.ExternalOnlyUnchanged | dockerbuild/dockerfile.go:30-36 | contents whose matches are all external are written unchanged |
| Rewriter.NoFromUnchanged | dockerbuild/dockerfile.go:30-36 | contents without any `FROM` match are written unchanged |
| Rewriter.SingleReferenceRewrite | dockerbuild/dockerfile.go:34 | one internal match rewrites the first occurrence of its image to `ForceTrailingSlash(base) + role + ":" + tag`, nothing else |
| Rewriter.DeclaredFirstOccurrence | dockerbuild/dockerfile.go:34 | the image of `FROM {{ local }}/base` first occurs at position 5 |
| Rewriter.DeclaredReplacement | dockerbuild/dockerfile.go:34 | with base `reg.io` or `reg.io/` and tag `v1` the replaced line is `FROM reg.io/base:v1` |
| Rewriter.DeclaredRewrite | dockerbuild/dockerfile.go:30-36 | the rewrite of `FROM {{ local }}/base` is `FROM reg.io/base:v1`, with or without a trailing slash on the base |
| Rewriter.RewriteContents | dockerbuild/dockerfile.go:30-36 | the loop computes all matches on the original contents once, then replaces first occurrences match by match |
| Rewriter.DynamicFileWithin | dockerbuild/dockerfile.go:13-47 | the generated file lies in the target directory, exists afterwards, and nothing outside that directory changes |
| Rewriter.CreateDynamicDockerfile | dockerbuild/dockerfile.go:13-47 | an unreadable or missing source or an unwritable target is a fatal error; otherwise the rewritten contents are stored at `target + "/" + hash(source)` and that name is returned; nothing else changes, so a source outside the target directory is not written |
| Scheduler.BuildArguments | dockerbuild/base-images.go:62-66 | the arguments are `build -t <image>:<tag> -f <file>`, then `--no-cache=true` when forcing, then `.` |
| Scheduler.BuildAndPush | dockerbuild/base-images.go:57-87 | one child: rewrite its file, build with those arguments, push its image if built and pushing is on |
| Scheduler.BuildOneEvents | dockerbuild/base-images.go:57-87 | one child's events are its build, then at most its push, and only files in the temp directory change |
| Scheduler.BuildBaseImagesWithChildren | dockerbuild/base-images.go:52-101 | the events and the new file state are those of the sequential walk from `parent`, a panic inside it included |
| Scheduler.BuildChild | dockerbuild/base-images.go:56-97 | one loop iteration: build the child, and walk its own children only if it built |
| Scheduler.ChildFails | dockerbuild/base-images.go:62 | a panic while preparing a child's file ends the whole run with that error |
| Scheduler.ChildBuilt | dockerbuild/base-images.go:73-97 | a built child's subtree is walked after it; a failed build skips the subtree and the loop continues |
| Scheduler.WalkAll | dockerbuild/base-images.go:52-101 | a finished walk from `parent` builds only descendants, each once; a child is built only after its parent built; every child is attempted; only the temp directory changes |
| Scheduler.WalkFrom | dockerbuild/base-images.go:56-98 | the same for the loop from child `i` on: only those children and their subtrees are built |
| Scheduler.WalkChild | dockerbuild/base-images.go:56-97 | the same for one child: it is built, and only it and its descendants |
| Scheduler.FailurePrunes | dockerbuild/base-images.go:73-97 | no descendant of an image whose build failed is ever built |
| Scheduler.WalkFromRoot | dockerbuild/base-images.go:52-101 | a finished run builds only rooted images, each once; every parent is built successfully before its children; every root and every child of a built image is attempted; failures prune their subtrees; arguments and pushes are as in the source |
| Scheduler.BuildBaseImages | dockerbuild/base-images.go:17-44 | a failed user lookup ends the run before anything happens; otherwise the run from `""` with the default tag, then the temp directory removed |
| Deployments.GetFolderDeployments | dockerbuild/deployments.go:64-90 | the loop returns the depth-first listing of the tree, or the listing failure |
| Deployments.GetDeployments | dockerbuild/deployments.go:58-62 | the deployments are exactly the non-hidden files below the root, at their relative paths |
| Deployments.ChildDeployments | dockerbuild/deployments.go:81-86 | one entry contributes its own relative path if a file, else the files below it at `name + "/"` |
| Deployments.EntriesExact | dockerbuild/deployments.go:73-89 | the loop from entry `i` adds exactly the visible files of the remaining entries |
| Deployments.FolderDeploymentsExact | dockerbuild/deployments.go:64-90 | a listing of `subpath` holds exactly the visible files below it, prefixed by `subpath` |
| Deployments.DeploymentOrder | dockerbuild/deployments.go:73-89 | `[b, a/x, .h]` lists as `b` then `a/x`: depth-first, listing order, hidden files skipped, not sorted; an empty directory lists nothing |
| Deployments.BuildDeployment | dockerbuild/deployments.go:14-55 | an empty base exits with status 1 (logrus `Fatal`) and a missing file with 101, before anything else; a file that exists but cannot be read crashes with `ReadFailed`, an unwritable dynamic file with `WriteFailed`; otherwise the rewrite, one build with `build --no-cache -t <image> -f <file> .`, a push exactly when the build succeeds, and the temp directory removed |
| Deployments.TempDirectoryCovers | dockerbuild/deployments.go:27-28 | a change confined to `tempDir + "/"` is confined to `tempDir` |
| Routes.GetImageChildrenString | webserver/routes.go:85-92 | the loop with its recursive call computes the indented tree text |
| Routes.ImageTextPreorder | webserver/routes.go:85-92 | the text is one line per descendant in pre-order, each indented by three spaces per level |
| Routes.FromPreorder | webserver/routes.go:87-89 | the text from child `i` on is the pre-order lines of those children |
| Routes.PreorderSize | webserver/routes.go:85-92 | the pre-order has one entry per descendant |
| Routes.PreorderFromSize | webserver/routes.go:87-89 | the pre-order from child `i` on has one entry per descendant of those children |
| Routes.ChildLineCount | webserver/routes.go:88 | each child line is one line |
| Routes.RenderCount | webserver/routes.go:85-92 | rendered pre-order entries give one line each |
| Routes.ImageChildrenLines | webserver/routes.go:85-92 | a node without children renders as `""`; the number of lines equals the number of descendants |
| Routes.RenderBaseImagesList | webserver/routes.go:49-59 | the loops build the listing: heading, each root and its subtree, a blank line, heading, one line per orphan |
| Routes.RootEntryCount | webserver/routes.go:52 | a root contributes its own line plus its children's lines |
| Routes.OrphanLineCount | webserver/routes.go:57 | each orphan is one line |
| Routes.RootsCount | webserver/routes.go:51-53 | the roots contribute one line per root and per descendant |
| Routes.OrphansCount | webserver/routes.go:56-58 | the orphans contribute one line each |
| Routes.ListingLines | webserver/routes.go:50-58 | the listing has 3 fixed lines plus one per root, per descendant and per orphan |
| Routes.SmallListing | webserver/routes.go:50-58 | the exact text for one root with one child and one orphan |

## Left out

- Goroutines and `sync.WaitGroup` (`dockerbuild/base-images.go:37-43, 53-100`). The scheduler runs sequentially: each child's push, then its subtree, in the order the Go code starts them. Interleavings of concurrent builds are not modelled.
- `executil.Command.Run`, the `docker build` and `docker push` subprocesses. They are the `build` and `push` oracles; the model does not use working directories or command names.
- SHA-256 and hex encoding of the source path. These are the `hash` parameter.
- `user.Current()`: its result is the `currentUser` parameter.
- `ioutil.TempDir`: the temp directory is the `tempDir` parameter, and its creation error, which the code ignores, is not modelled.
- Logging: logrus Info, Debug, Warn and Error lines are not modelled, apart from the push warnings. `Logger.Fatal` is modelled as the `Fatal` results and, in `BuildDeployment`, as exit status 1.
- Text.ToLower: Go's `strings.ToLower` is Unicode-aware; the model lower-cases ASCII only.
- Go map iteration order. `buildDockerImageHeirarchy` iterates the loaded map in an unspecified order. The model picks an arbitrary order (`:|`), so its results hold for every order.
- `filesystem.IsDirectory` and `IsFile` are read from the entry kind of the listed tree; a `File` entry is a file.
- `GetBaseImageHeirarchy`, `BuildInventory`, `SetDockerBaseDirectory`, `SetLogger`, `SetVerbosity` and `db.initialize`: these only assign or return package globals.
- `cmd/*`, the gin server and handlers, JSON and YAML output, and `renderDeploymentsList`: these are outside the core.
- Deployments.BuildDeployment: the deployment tag is a parameter supplied by the caller; no default for it is modelled.
- Scheduler.BuildBaseImages: the temp-directory cleanup is stated only for runs without a panic, because a panic skips the deferred removal.
- Text.ForceTrailingSlash: `filesystem.ForceTrailingSlash` belongs to an external package whose body is not part of this model. It is modelled by what its name promises: append `/` unless the string already ends in `/`. Its behaviour on `""` and on repeated slashes is therefore assumed, and `Scheduler.ImageName`, `Rewriter.Replacement` and `Rewriter.DeclaredReplacement` rest on that definition.
