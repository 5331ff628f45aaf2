/** `buildBaseImagesWithChildren` and `BuildBaseImages`
    (dockerbuild/base-images.go), run one step at a time: each child of the
    current parent gets a dynamic instruction file and a `docker build`; a
    successful build is pushed (when asked) and then its own children are
    built, a failed one ends that branch. The build and push commands are
    parameters, and everything the walk does is recorded as events. */
module Scheduler {
  import opened Wrappers
  import opened Text
  import opened DockerBuild
  import opened FileSystem
  import opened Inventory
  import opened Hierarchy
  import opened Rewriter
  import opened Registry

  /** What a build run is told. `build(args)` is the success of `docker` run
      with `args`; `push(image)(k)` the outcome of the `k`-th push of `image`. */
  datatype Config = Config(
    tempDir: string, registryBasePath: string, tag: string, forceRebuild: bool, pushToRemote: bool,
    hash: string -> string, build: seq<string> -> bool, push: string -> nat -> Option<string>)

  datatype Event =
    | Built(name: string, args: seq<string>, ok: bool)
    | Pushed(image: string, err: Option<string>, attempts: nat)

  /** The files after a run, and the events it produced. */
  datatype Progress = Progress(files: map<string, string>, events: seq<Event>)

  /** Line 57: the image's name in the registry. */
  function ImageName(cfg: Config, name: string): string {
    ForceTrailingSlash(cfg.registryBasePath) + name
  }

  function ImageRef(cfg: Config, name: string): string {
    ImageName(cfg, name) + ":" + cfg.tag
  }

  /** Lines 62-66: the arguments of `docker build`. */
  function BuildArgs(cfg: Config, name: string, dockerfile: string): seq<string> {
    ["build", "-t", ImageRef(cfg, name), "-f", dockerfile] + (if cfg.forceRebuild then ["--no-cache=true"] else []) + ["."]
  }

  function Outcome(fatal: Option<Fatal>, files: map<string, string>, events: seq<Event>): Result<Progress, Fatal> {
    if fatal.Some? then Err(fatal.value) else Ok(Progress(files, events))
  }

  /** `p`'s events followed by those of `r`, ending in `r`'s files. */
  function Then(p: Progress, r: Result<Progress, Fatal>): Result<Progress, Fatal> {
    match r
    case Err(e) => Err(e)
    case Ok(q) => Ok(Progress(q.files, p.events + q.events))
  }

  /** Lines 57-97 for one record: its dynamic file, its build, and its push. */
  function BuildOne(cfg: Config, faults: Faults, rec: Record, files: map<string, string>): Result<(map<string, string>, seq<Event>, bool), Fatal> {
    match DynamicFile(files, faults, cfg.tempDir, rec.filename, cfg.registryBasePath, cfg.tag, cfg.hash)
    case Err(e) => Err(e)
    case Ok((dockerfile, after)) =>
      var args := BuildArgs(cfg, rec.name, dockerfile);
      var ok := cfg.build(args);
      var image := ImageRef(cfg, rec.name);
      var pushed := if ok && cfg.pushToRemote then [Pushed(image, PushError(cfg.push(image)), PushAttempts(cfg.push(image)))] else [];
      Ok((after, [Built(rec.name, args, ok)] + pushed, ok))
  }

  /** The walk below `parent`. */
  ghost function BuildAll(dfh: Heirarchy, all: map<string, Dockerfile>, parent: string, path: seq<string>,
                          cfg: Config, faults: Faults, files: map<string, string>): Result<Progress, Fatal>
    requires Setting(dfh, all, path, parent)
    decreases all.Keys - PathSet(path), 1, 0, 0
  {
    BuildFrom(dfh, all, parent, path, cfg, faults, 0, files)
  }

  /** The walk over the children of `parent` from index `i` on. */
  ghost function BuildFrom(dfh: Heirarchy, all: map<string, Dockerfile>, parent: string, path: seq<string>,
                           cfg: Config, faults: Faults, i: nat, files: map<string, string>): Result<Progress, Fatal>
    requires Setting(dfh, all, path, parent) && i <= |Children(dfh, parent)|
    decreases all.Keys - PathSet(path), 0, |Children(dfh, parent)| - i, 1
  {
    if i == |Children(dfh, parent)| then Ok(Progress(files, []))
    else
      match ChildRun(dfh, all, parent, path, cfg, faults, i, files)
      case Err(e) => Err(e)
      case Ok(p) => Then(p, BuildFrom(dfh, all, parent, path, cfg, faults, i + 1, p.files))
  }

  /** Child `i` of `parent`: its build, and the walk below it when the build succeeds. */
  ghost function ChildRun(dfh: Heirarchy, all: map<string, Dockerfile>, parent: string, path: seq<string>,
                          cfg: Config, faults: Faults, i: nat, files: map<string, string>): Result<Progress, Fatal>
    requires Setting(dfh, all, path, parent) && i < |Children(dfh, parent)|
    decreases all.Keys - PathSet(path), 0, |Children(dfh, parent)| - i, 0
  {
    var c := Children(dfh, parent)[i];
    ChildExtendsPath(dfh, all, path, parent, i);
    match BuildOne(cfg, faults, c.Value(), files)
    case Err(e) => Err(e)
    case Ok((after, events, ok)) =>
      if ok then Then(Progress(after, events), BuildAll(dfh, all, c.name, path + [c.name], cfg, faults, after))
      else Ok(Progress(after, events))
  }

  lemma ThenNothing(r: Result<Progress, Fatal>, files: map<string, string>)
    ensures Then(Progress(files, []), r) == r
  {
    if r.Ok? {
      assert [] + r.value.events == r.value.events;
    }
  }

  lemma ThenThen(p: Progress, q: Progress, r: Result<Progress, Fatal>)
    ensures Then(p, Then(q, r)) == Then(Progress(q.files, p.events + q.events), r)
  {
    if r.Ok? {
      assert p.events + (q.events + r.value.events) == (p.events + q.events) + r.value.events;
    }
  }

  /** One child further along the walk over the children of `parent`. */
  lemma FromStep(dfh: Heirarchy, all: map<string, Dockerfile>, parent: string, path: seq<string>,
                 cfg: Config, faults: Faults, i: nat, files: map<string, string>, prior: seq<Event>,
                 fatal: Option<Fatal>, after: map<string, string>, events: seq<Event>)
    requires Setting(dfh, all, path, parent) && i < |Children(dfh, parent)|
    requires Outcome(fatal, after, events) == ChildRun(dfh, all, parent, path, cfg, faults, i, files)
    ensures Then(Progress(files, prior), BuildFrom(dfh, all, parent, path, cfg, faults, i, files)) ==
            if fatal.Some? then Err(fatal.value)
            else Then(Progress(after, prior + events), BuildFrom(dfh, all, parent, path, cfg, faults, i + 1, after))
  {
    if fatal.None? {
      ThenThen(Progress(files, prior), Progress(after, events), BuildFrom(dfh, all, parent, path, cfg, faults, i + 1, after));
    }
  }

  /** Lines 52-101, the children of `parent` one after another. */
  method BuildBaseImagesWithChildren(store: FileStore, dfh: Heirarchy, cfg: Config, parent: string,
                                     ghost all: map<string, Dockerfile>, ghost path: seq<string>)
    returns (fatal: Option<Fatal>, events: seq<Event>)
    requires Setting(dfh, all, path, parent)
    modifies store
    ensures Outcome(fatal, store.files, events) == BuildAll(dfh, all, parent, path, cfg, store.faults, old(store.files))
    decreases all.Keys - PathSet(path), 1
  {
    ghost var files0 := store.files;
    var children := Children(dfh, parent);
    events := [];
    ThenNothing(BuildFrom(dfh, all, parent, path, cfg, store.faults, 0, files0), files0);
    var i := 0;
    while i < |children|
      invariant 0 <= i <= |children|
      invariant BuildAll(dfh, all, parent, path, cfg, store.faults, files0) ==
                Then(Progress(store.files, events), BuildFrom(dfh, all, parent, path, cfg, store.faults, i, store.files))
    {
      ghost var before := store.files;
      var childFatal, childEvents := BuildChild(store, dfh, cfg, parent, i, all, path);
      FromStep(dfh, all, parent, path, cfg, store.faults, i, before, events, childFatal, store.files, childEvents);
      if childFatal.Some? {
        assert BuildAll(dfh, all, parent, path, cfg, store.faults, files0) == Err(childFatal.value);
        return childFatal, [];
      }
      events := events + childEvents;
      i := i + 1;
    }
    assert events + [] == events;
    fatal := None;
  }

  /** The body of the loop for child `i`. */
  method BuildChild(store: FileStore, dfh: Heirarchy, cfg: Config, parent: string, i: nat,
                    ghost all: map<string, Dockerfile>, ghost path: seq<string>)
    returns (fatal: Option<Fatal>, events: seq<Event>)
    requires Setting(dfh, all, path, parent) && i < |Children(dfh, parent)|
    modifies store
    ensures Outcome(fatal, store.files, events) == ChildRun(dfh, all, parent, path, cfg, store.faults, i, old(store.files))
    decreases all.Keys - PathSet(path), 0
  {
    var c := Children(dfh, parent)[i];
    ghost var files := store.files;
    var ok;
    fatal, events, ok := BuildAndPush(store, cfg, c);
    if fatal.Some? {
      ChildFails(dfh, all, parent, path, cfg, store.faults, i, files);
      return;
    }
    ChildBuilt(dfh, all, parent, path, cfg, store.faults, i, files);
    ChildExtendsPath(dfh, all, path, parent, i);
    if ok {
      var subFatal, sub := BuildBaseImagesWithChildren(store, dfh, cfg, c.name, all, path + [c.name]);
      if subFatal.Some? {
        return subFatal, [];
      }
      events := events + sub;
    }
  }

  /** Lines 57-87 for one record: the dynamic file, the build, and the push
      of a successful build when pushing is on. */
  method BuildAndPush(store: FileStore, cfg: Config, c: Dockerfile) returns (fatal: Option<Fatal>, events: seq<Event>, ok: bool)
    modifies store
    ensures BuildOne(cfg, store.faults, c.Value(), old(store.files)) ==
            if fatal.Some? then Err(fatal.value) else Ok((store.files, events, ok))
  {
    ghost var rec := c.Value();
    var imageName := ForceTrailingSlash(cfg.registryBasePath) + c.name;
    var dockerfile := CreateDynamicDockerfile(store, cfg.tempDir, c.filename, cfg.registryBasePath, cfg.tag, cfg.hash);
    if dockerfile.Err? {
      return Some(dockerfile.error), [], false;
    }
    var arguments := BuildArguments(cfg, c.name, dockerfile.value);
    ok := cfg.build(arguments);
    events := [Built(c.name, arguments, ok)];
    fatal := None;
    if ok && cfg.pushToRemote {
      var image := imageName + ":" + cfg.tag;
      assert image == ImageRef(cfg, rec.name);
      var err, commands, _ := PushImageToRegistry(image, cfg.push(image));
      events := events + [Pushed(image, err, |commands|)];
    } else {
      assert events == [Built(c.name, arguments, ok)] + [];
    }
  }

  /** Lines 62-66, the arguments appended step by step. */
  method BuildArguments(cfg: Config, name: string, dockerfile: string) returns (arguments: seq<string>)
    ensures arguments == BuildArgs(cfg, name, dockerfile)
  {
    var imageName := ForceTrailingSlash(cfg.registryBasePath) + name;
    arguments := ["build", "-t", imageName + ":" + cfg.tag, "-f", dockerfile];
    if cfg.forceRebuild {
      arguments := arguments + ["--no-cache=true"];
    }
    arguments := arguments + ["."];
  }

  lemma ChildFails(dfh: Heirarchy, all: map<string, Dockerfile>, parent: string, path: seq<string>,
                   cfg: Config, faults: Faults, i: nat, files: map<string, string>)
    requires Setting(dfh, all, path, parent) && i < |Children(dfh, parent)|
    requires BuildOne(cfg, faults, Children(dfh, parent)[i].Value(), files).Err?
    ensures ChildRun(dfh, all, parent, path, cfg, faults, i, files) ==
            Err(BuildOne(cfg, faults, Children(dfh, parent)[i].Value(), files).error)
  {
  }

  lemma ChildBuilt(dfh: Heirarchy, all: map<string, Dockerfile>, parent: string, path: seq<string>,
                   cfg: Config, faults: Faults, i: nat, files: map<string, string>)
    requires Setting(dfh, all, path, parent) && i < |Children(dfh, parent)|
    requires BuildOne(cfg, faults, Children(dfh, parent)[i].Value(), files).Ok?
    ensures var c := Children(dfh, parent)[i];
            var (after, events, ok) := BuildOne(cfg, faults, c.Value(), files).value;
            Setting(dfh, all, path + [c.name], c.name) &&
            ChildRun(dfh, all, parent, path, cfg, faults, i, files) ==
            if ok then Then(Progress(after, events), BuildAll(dfh, all, c.name, path + [c.name], cfg, faults, after))
            else Ok(Progress(after, events))
  {
    ChildExtendsPath(dfh, all, path, parent, i);
  }

  // Properties of the events of a walk

  /** The names built, and the names built successfully. */
  function BuiltSet(e: seq<Event>): set<string> {
    set j | 0 <= j < |e| && e[j].Built? :: e[j].name
  }

  function OkSet(e: seq<Event>): set<string> {
    set j | 0 <= j < |e| && e[j].Built? && e[j].ok :: e[j].name
  }

  lemma SetsConcat(a: seq<Event>, b: seq<Event>)
    ensures BuiltSet(a + b) == BuiltSet(a) + BuiltSet(b)
    ensures OkSet(a + b) == OkSet(a) + OkSet(b)
  {
    forall n | n in BuiltSet(a + b) ensures n in BuiltSet(a) + BuiltSet(b) {
      var j :| 0 <= j < |a + b| && (a + b)[j].Built? && (a + b)[j].name == n;
      if j >= |a| { assert b[j - |a|] == (a + b)[j]; }
    }
    forall n | n in BuiltSet(a) ensures n in BuiltSet(a + b) {
      var j :| 0 <= j < |a| && a[j].Built? && a[j].name == n;
      assert (a + b)[j] == a[j];
    }
    forall n | n in OkSet(a) ensures n in OkSet(a + b) {
      var j :| 0 <= j < |a| && a[j].Built? && a[j].ok && a[j].name == n;
      assert (a + b)[j] == a[j];
    }
    forall n | n in BuiltSet(b) ensures n in BuiltSet(a + b) {
      var j :| 0 <= j < |b| && b[j].Built? && b[j].name == n;
      assert (a + b)[|a| + j] == b[j];
    }
    forall n | n in OkSet(a + b) ensures n in OkSet(a) + OkSet(b) {
      var j :| 0 <= j < |a + b| && (a + b)[j].Built? && (a + b)[j].ok && (a + b)[j].name == n;
      if j >= |a| { assert b[j - |a|] == (a + b)[j]; }
    }
    forall n | n in OkSet(b) ensures n in OkSet(a + b) {
      var j :| 0 <= j < |b| && b[j].Built? && b[j].ok && b[j].name == n;
      assert (a + b)[|a| + j] == b[j];
    }
  }

  /** Each image is built at most once. */
  ghost predicate BuildsOnce(e: seq<Event>) {
    forall a, b :: 0 <= a < b < |e| && e[a].Built? && e[b].Built? ==> e[a].name != e[b].name
  }

  lemma BuildsOnceConcat(a: seq<Event>, b: seq<Event>)
    requires BuildsOnce(a) && BuildsOnce(b) && BuiltSet(a) !! BuiltSet(b)
    ensures BuildsOnce(a + b)
  {
    forall x, y | 0 <= x < y < |a + b| && (a + b)[x].Built? && (a + b)[y].Built? ensures (a + b)[x].name != (a + b)[y].name {
      if y < |a| {
        assert (a + b)[x] == a[x] && (a + b)[y] == a[y];
      } else if x >= |a| {
        assert (a + b)[x] == b[x - |a|] && (a + b)[y] == b[y - |a|];
      } else {
        assert (a + b)[x] == a[x] && (a + b)[y] == b[y - |a|];
        assert a[x].name in BuiltSet(a) && b[y - |a|].name in BuiltSet(b);
      }
    }
  }

  /** Every image built is a loaded record whose parent list is `p`'s or
      whose parent was built successfully before it. */
  ghost predicate GatedFrom(vals: map<string, Record>, e: seq<Event>, p: string) {
    forall j :: 0 <= j < |e| && e[j].Built? ==>
      e[j].name in vals && (vals[e[j].name].Key() == p || vals[e[j].name].Key() in OkSet(e[..j]))
  }

  lemma GatedConcat(vals: map<string, Record>, a: seq<Event>, b: seq<Event>, p: string)
    requires GatedFrom(vals, a, p) && GatedFrom(vals, b, p)
    ensures GatedFrom(vals, a + b, p)
  {
    forall j | 0 <= j < |a + b| && (a + b)[j].Built?
      ensures (a + b)[j].name in vals && (vals[(a + b)[j].name].Key() == p || vals[(a + b)[j].name].Key() in OkSet((a + b)[..j]))
    {
      if j < |a| {
        assert (a + b)[j] == a[j] && (a + b)[..j] == a[..j];
      } else {
        var k := j - |a|;
        assert (a + b)[j] == b[k] && (a + b)[..j] == a + b[..k];
        SetsConcat(a, b[..k]);
      }
    }
  }

  /** A child's build, followed by the walk below it, is gated from the child's parent. */
  lemma GatedChild(vals: map<string, Record>, head: seq<Event>, below: seq<Event>, c: string, p: string)
    requires |head| > 0 && head[0].Built? && head[0].name == c && c in vals && vals[c].Key() == p
    requires forall j :: 0 < j < |head| ==> !head[j].Built?
    requires below != [] ==> head[0].ok
    requires GatedFrom(vals, below, c)
    ensures GatedFrom(vals, head + below, p)
  {
    var e := head + below;
    forall j | 0 <= j < |e| && e[j].Built? ensures e[j].name in vals && (vals[e[j].name].Key() == p || vals[e[j].name].Key() in OkSet(e[..j])) {
      if j < |head| {
        assert e[j] == head[j];
      } else {
        var k := j - |head|;
        assert e[j] == below[k] && e[..j] == head + below[..k];
        SetsConcat(head, below[..k]);
        assert c in OkSet(head) by { assert head[0].Built? && head[0].ok; }
      }
    }
  }

  /** The events agree with the configuration: each build has the arguments of
      its record and the outcome `build` gives them, and a push directly
      follows exactly the successful builds, when pushing is on. */
  ghost predicate Faithful(cfg: Config, vals: map<string, Record>, e: seq<Event>) {
    && (forall j :: 0 <= j < |e| && e[j].Built? ==> FaithfulBuild(cfg, vals, e, j))
    && (forall j :: 0 <= j < |e| && e[j].Pushed? ==> cfg.pushToRemote && 0 < j && e[j - 1].Built? && e[j - 1].ok)
  }

  /** What `Faithful` asks of the build event at index `j`. */
  ghost predicate FaithfulBuild(cfg: Config, vals: map<string, Record>, e: seq<Event>, j: nat)
    requires j < |e| && e[j].Built?
  {
    && e[j].name in vals
    && e[j].args == BuildArgs(cfg, e[j].name, DynamicName(cfg.tempDir, vals[e[j].name].filename, cfg.hash))
    && e[j].ok == cfg.build(e[j].args)
    && (e[j].ok && cfg.pushToRemote ==>
          j + 1 < |e| &&
          e[j + 1] == Pushed(ImageRef(cfg, e[j].name), PushError(cfg.push(ImageRef(cfg, e[j].name))),
                             PushAttempts(cfg.push(ImageRef(cfg, e[j].name)))))
  }

  lemma FaithfulConcat(cfg: Config, vals: map<string, Record>, a: seq<Event>, b: seq<Event>)
    requires Faithful(cfg, vals, a) && Faithful(cfg, vals, b)
    ensures Faithful(cfg, vals, a + b)
  {
    var e := a + b;
    forall j | 0 <= j < |e| && e[j].Built? ensures FaithfulBuild(cfg, vals, e, j) {
      if j < |a| {
        assert FaithfulBuild(cfg, vals, a, j);
        if j + 1 < |a| { assert e[j + 1] == a[j + 1]; }
        assert e[j] == a[j];
      } else {
        assert FaithfulBuild(cfg, vals, b, j - |a|);
        if j + 1 < |e| { assert e[j + 1] == b[j + 1 - |a|]; }
        assert e[j] == b[j - |a|];
      }
    }
    forall j | 0 <= j < |e| && e[j].Pushed? ensures cfg.pushToRemote && 0 < j && e[j - 1].Built? && e[j - 1].ok {
      if j < |a| {
        assert e[j] == a[j] && e[j - 1] == a[j - 1];
      } else {
        assert e[j] == b[j - |a|];
        if j > |a| { assert e[j - 1] == b[j - 1 - |a|]; }
      }
    }
  }

  /** Every child of `p`, and every child of an image built successfully, is built. */
  ghost predicate Reaches(dfh: Heirarchy, e: seq<Event>, p: string) {
    && (forall c :: c in Children(dfh, p) ==> c.name in BuiltSet(e))
    && Closed(dfh, e)
  }

  ghost predicate Closed(dfh: Heirarchy, e: seq<Event>) {
    forall n, c :: n in OkSet(e) && c in Children(dfh, n) ==> c.name in BuiltSet(e)
  }

  /** The facts a part of the walk keeps, whatever part it is. */
  ghost predicate Segment(dfh: Heirarchy, all: map<string, Dockerfile>, cfg: Config, e: seq<Event>, p: string) {
    GatedFrom(Values(all), e, p) && BuildsOnce(e) && Faithful(cfg, Values(all), e) && Closed(dfh, e)
  }

  /** The events of one record's build and push. */
  lemma BuildOneEvents(cfg: Config, faults: Faults, rec: Record, files: map<string, string>, vals: map<string, Record>)
    requires BuildOne(cfg, faults, rec, files).Ok? && rec.name in vals && vals[rec.name] == rec
    ensures var (after, head, ok) := BuildOne(cfg, faults, rec, files).value;
            && |head| > 0 && head[0].Built? && head[0].name == rec.name && head[0].ok == ok
            && (forall j :: 0 < j < |head| ==> !head[j].Built?)
            && Faithful(cfg, vals, head) && BuildsOnce(head)
            && BuiltSet(head) == {rec.name} && OkSet(head) == (if ok then {rec.name} else {})
            && Removed(after, cfg.tempDir) == Removed(files, cfg.tempDir)
  {
    DynamicFileWithin(files, faults, cfg.tempDir, rec.filename, cfg.registryBasePath, cfg.tag, cfg.hash);
    var (after, head, ok) := BuildOne(cfg, faults, rec, files).value;
    assert FaithfulBuild(cfg, vals, head, 0);
    assert BuiltSet(head) == {rec.name} by {
      assert head[0].Built? && head[0].name == rec.name;
    }
    if ok {
      assert head[0].Built? && head[0].ok;
    }
  }

  lemma SegmentConcat(dfh: Heirarchy, all: map<string, Dockerfile>, cfg: Config, a: seq<Event>, b: seq<Event>, p: string)
    requires Segment(dfh, all, cfg, a, p) && Segment(dfh, all, cfg, b, p) && BuiltSet(a) !! BuiltSet(b)
    ensures Segment(dfh, all, cfg, a + b, p)
    ensures BuiltSet(a + b) == BuiltSet(a) + BuiltSet(b)
  {
    SetsConcat(a, b);
    GatedConcat(Values(all), a, b, p);
    BuildsOnceConcat(a, b);
    FaithfulConcat(cfg, Values(all), a, b);
  }

  /** A child's own events followed by the walk below it. */
  lemma SegmentChild(dfh: Heirarchy, all: map<string, Dockerfile>, cfg: Config, head: seq<Event>, below: seq<Event>, c: string, p: string)
    requires c in Values(all) && Values(all)[c].Key() == p
    requires |head| > 0 && head[0].Built? && head[0].name == c
    requires forall j :: 0 < j < |head| ==> !head[j].Built?
    requires Faithful(cfg, Values(all), head) && BuildsOnce(head) && BuiltSet(head) == {c}
    requires OkSet(head) == if head[0].ok then {c} else {}
    requires below != [] ==> head[0].ok
    requires Segment(dfh, all, cfg, below, c) && c !in BuiltSet(below)
    requires head[0].ok ==> forall d :: d in Children(dfh, c) ==> d.name in BuiltSet(below)
    ensures Segment(dfh, all, cfg, head + below, p)
    ensures BuiltSet(head + below) == {c} + BuiltSet(below)
  {
    SetsConcat(head, below);
    GatedChild(Values(all), head, below, c, p);
    BuildsOnceConcat(head, below);
    FaithfulConcat(cfg, Values(all), head, below);
  }

  /** The walk below `parent`: every image it builds lies below `parent`, every
      child of `parent` is built, and the walk is a `Segment`. */
  lemma {:induction false} WalkAll(dfh: Heirarchy, all: map<string, Dockerfile>, parent: string, path: seq<string>,
                                   cfg: Config, faults: Faults, files: map<string, string>)
    requires Setting(dfh, all, path, parent)
    requires BuildAll(dfh, all, parent, path, cfg, faults, files).Ok?
    ensures var r := BuildAll(dfh, all, parent, path, cfg, faults, files).value;
            && Segment(dfh, all, cfg, r.events, parent)
            && (forall n :: n in BuiltSet(r.events) ==> Descends(Values(all), n, parent))
            && (forall c :: c in Children(dfh, parent) ==> c.name in BuiltSet(r.events))
            && Removed(r.files, cfg.tempDir) == Removed(files, cfg.tempDir)
    decreases all.Keys - PathSet(path), 1, 0, 0
  {
    WalkFrom(dfh, all, parent, path, cfg, faults, 0, files);
    var e := BuildAll(dfh, all, parent, path, cfg, faults, files).value.events;
    forall n | n in BuiltSet(e) ensures Descends(Values(all), n, parent) {
      DescendsUnfold(dfh, all, parent, n);
    }
    forall c | c in Children(dfh, parent) ensures c.name in BuiltSet(e) {
      var k :| 0 <= k < |Children(dfh, parent)| && Children(dfh, parent)[k] == c;
    }
  }

  lemma {:induction false} WalkFrom(dfh: Heirarchy, all: map<string, Dockerfile>, parent: string, path: seq<string>,
                                    cfg: Config, faults: Faults, i: nat, files: map<string, string>)
    requires Setting(dfh, all, path, parent) && i <= |Children(dfh, parent)|
    requires BuildFrom(dfh, all, parent, path, cfg, faults, i, files).Ok?
    ensures var r := BuildFrom(dfh, all, parent, path, cfg, faults, i, files).value;
            var ch := Children(dfh, parent);
            && Segment(dfh, all, cfg, r.events, parent)
            && (forall n :: n in BuiltSet(r.events) ==> Below(Values(all), ch, i, |ch|, n))
            && (forall k :: i <= k < |ch| ==> ch[k].name in BuiltSet(r.events))
            && Removed(r.files, cfg.tempDir) == Removed(files, cfg.tempDir)
    decreases all.Keys - PathSet(path), 0, |Children(dfh, parent)| - i, 1
  {
    var ch := Children(dfh, parent);
    if i < |ch| {
      var first := ChildRun(dfh, all, parent, path, cfg, faults, i, files).value;
      WalkChild(dfh, all, parent, path, cfg, faults, i, files);
      var rest := BuildFrom(dfh, all, parent, path, cfg, faults, i + 1, first.files).value;
      WalkFrom(dfh, all, parent, path, cfg, faults, i + 1, first.files);
      SubtreesApart(dfh, all, path, parent, i, BuiltSet(first.events), BuiltSet(rest.events));
      FromCombine(dfh, all, cfg, parent, ch, i, first.events, rest.events);
    }
  }

  /** Child `i`'s part of the walk followed by the part over the later children. */
  lemma FromCombine(dfh: Heirarchy, all: map<string, Dockerfile>, cfg: Config, parent: string, ch: seq<Dockerfile>,
                    i: nat, a: seq<Event>, b: seq<Event>)
    requires i < |ch| && BuiltSet(a) !! BuiltSet(b)
    requires Segment(dfh, all, cfg, a, parent) && Segment(dfh, all, cfg, b, parent)
    requires ch[i].name in BuiltSet(a) && forall n :: n in BuiltSet(a) ==> n == ch[i].name || Descends(Values(all), n, ch[i].name)
    requires forall n :: n in BuiltSet(b) ==> Below(Values(all), ch, i + 1, |ch|, n)
    requires forall k :: i + 1 <= k < |ch| ==> ch[k].name in BuiltSet(b)
    ensures Segment(dfh, all, cfg, a + b, parent)
    ensures forall n :: n in BuiltSet(a + b) ==> Below(Values(all), ch, i, |ch|, n)
    ensures forall k :: i <= k < |ch| ==> ch[k].name in BuiltSet(a + b)
  {
    SegmentConcat(dfh, all, cfg, a, b, parent);
    BelowCombine(Values(all), ch, i, BuiltSet(a), BuiltSet(b));
  }

  /** Names below child `i` and names below the later children are apart. */
  lemma SubtreesApart(dfh: Heirarchy, all: map<string, Dockerfile>, path: seq<string>, parent: string,
                      i: nat, a: set<string>, b: set<string>)
    requires Setting(dfh, all, path, parent) && i < |Children(dfh, parent)|
    requires var c := Children(dfh, parent)[i].name; forall n :: n in a ==> n == c || Descends(Values(all), n, c)
    requires forall n :: n in b ==> Below(Values(all), Children(dfh, parent), i + 1, |Children(dfh, parent)|, n)
    ensures a !! b
  {
    var ch := Children(dfh, parent);
    forall n | n in a && n in b ensures false {
      var j :| i + 1 <= j < |ch| && (n == ch[j].name || Descends(Values(all), n, ch[j].name));
      SiblingsApart(dfh, all, path, parent, i, j, n);
    }
  }

  lemma BelowCombine(vals: map<string, Record>, ch: seq<Dockerfile>, i: nat, a: set<string>, b: set<string>)
    requires i < |ch|
    requires forall n :: n in a ==> n == ch[i].name || Descends(vals, n, ch[i].name)
    requires forall n :: n in b ==> Below(vals, ch, i + 1, |ch|, n)
    ensures forall n :: n in a + b ==> Below(vals, ch, i, |ch|, n)
  {
    forall n | n in a + b ensures Below(vals, ch, i, |ch|, n) {
      if n in b {
        var j :| i + 1 <= j < |ch| && j < |ch| && (n == ch[j].name || Descends(vals, n, ch[j].name));
      }
    }
  }

  lemma {:induction false} WalkChild(dfh: Heirarchy, all: map<string, Dockerfile>, parent: string, path: seq<string>,
                                     cfg: Config, faults: Faults, i: nat, files: map<string, string>)
    requires Setting(dfh, all, path, parent) && i < |Children(dfh, parent)|
    requires ChildRun(dfh, all, parent, path, cfg, faults, i, files).Ok?
    ensures var r := ChildRun(dfh, all, parent, path, cfg, faults, i, files).value;
            var c := Children(dfh, parent)[i].name;
            && Segment(dfh, all, cfg, r.events, parent)
            && (forall n :: n in BuiltSet(r.events) ==> n == c || Descends(Values(all), n, c))
            && c in BuiltSet(r.events)
            && Removed(r.files, cfg.tempDir) == Removed(files, cfg.tempDir)
    decreases all.Keys - PathSet(path), 0, |Children(dfh, parent)| - i, 0
  {
    var df := Children(dfh, parent)[i];
    var c := df.name;
    var vals := Values(all);
    ChildExtendsPath(dfh, all, path, parent, i);
    assert all[c] == df && vals[c] == df.Value();
    var (after, head, ok) := BuildOne(cfg, faults, df.Value(), files).value;
    BuildOneEvents(cfg, faults, df.Value(), files, vals);
    if ok {
      var sub := BuildAll(dfh, all, c, path + [c], cfg, faults, after).value;
      WalkAll(dfh, all, c, path + [c], cfg, faults, after);
      NoSelfDescent(dfh, all, path, parent, i);
      SegmentChild(dfh, all, cfg, head, sub.events, c, parent);
    } else {
      assert head + [] == head;
      SegmentChild(dfh, all, cfg, head, [], c, parent);
    }
  }

  /** Nothing below an image whose build failed is built: each image built
      waits for its parent's successful build, and each is built once. */
  lemma {:induction false} FailurePrunes(vals: map<string, Record>, e: seq<Event>, i: nat, k: nat)
    requires NamesKeyed(vals) && GatedFrom(vals, e, "") && BuildsOnce(e)
    requires i < |e| && e[i].Built? && !e[i].ok
    ensures forall j :: 0 <= j < |e| && e[j].Built? ==> !DescendsWithin(vals, e[j].name, e[i].name, k)
    decreases k
  {
    var m := e[i].name;
    forall j | 0 <= j < |e| && e[j].Built? && DescendsWithin(vals, e[j].name, m, k) ensures false {
      var q := vals[e[j].name].Key();
      assert m in vals && m != "";
      if q == "" {
        assert !DescendsWithin(vals, q, m, k - 1);
      } else {
        assert q in OkSet(e[..j]);
        var i' :| 0 <= i' < j && e[..j][i'].Built? && e[..j][i'].ok && e[..j][i'].name == q;
        assert e[i'] == e[..j][i'];
        if q != m {
          FailurePrunes(vals, e, i, k - 1);
        }
      }
    }
  }

  /** A whole run from the root list (lines 37-38 with 52-101): each image built has an
      external base or a parent built successfully before it; each is built
      once, with the arguments of its record, and pushed right after a
      successful build when pushing is on; every image on the root list and
      every child of a successful build is built; nothing below a failed
      build is; and only files in the temporary directory change. */
  lemma WalkFromRoot(dfh: Heirarchy, all: map<string, Dockerfile>, cfg: Config, faults: Faults, files: map<string, string>)
    requires Setting(dfh, all, [""], "")
    requires BuildAll(dfh, all, "", [""], cfg, faults, files).Ok?
    ensures var r := BuildAll(dfh, all, "", [""], cfg, faults, files).value;
            var e := r.events;
            var vals := Values(all);
            && (forall j :: 0 <= j < |e| && e[j].Built? ==>
                  e[j].name in vals && Rooted(vals, e[j].name) &&
                  (vals[e[j].name].Key() == "" || vals[e[j].name].Key() in OkSet(e[..j])))
            && BuildsOnce(e)
            && Faithful(cfg, vals, e)
            && (forall c :: c in Children(dfh, "") ==> c.name in BuiltSet(e))
            && Closed(dfh, e)
            && (forall i, j :: 0 <= i < |e| && 0 <= j < |e| && e[i].Built? && !e[i].ok && e[j].Built? ==>
                  !Descends(vals, e[j].name, e[i].name))
            && Removed(r.files, cfg.tempDir) == Removed(files, cfg.tempDir)
  {
    WalkAll(dfh, all, "", [""], cfg, faults, files);
    var e := BuildAll(dfh, all, "", [""], cfg, faults, files).value.events;
    var vals := Values(all);
    forall j | 0 <= j < |e| && e[j].Built? ensures Rooted(vals, e[j].name) {
      assert e[j].name in BuiltSet(e);
    }
    forall i, j | 0 <= i < |e| && 0 <= j < |e| && e[i].Built? && !e[i].ok && e[j].Built?
      ensures !Descends(vals, e[j].name, e[i].name)
    {
      if Descends(vals, e[j].name, e[i].name) {
        var k: nat :| DescendsWithin(vals, e[j].name, e[i].name, k);
        FailurePrunes(vals, e, i, k);
      }
    }
  }

  /** `BuildBaseImages` (lines 17-44): settle the tag, walk the hierarchy from
      the root list, then remove the temporary directory. A fatal error ends the
      process before the deferred removal runs. */
  method BuildBaseImages(store: FileStore, dfh: Heirarchy, ghost all: map<string, Dockerfile>,
                         registryBasePath: string, tag: string, forceRebuild: bool, pushToRemote: bool,
                         currentUser: Result<string, string>, tempDir: string,
                         hash: string -> string, build: seq<string> -> bool, push: string -> nat -> Option<string>)
    returns (fatal: Option<Fatal>, events: seq<Event>)
    requires Setting(dfh, all, [""], "")
    modifies store
    ensures DefaultTag(tag, currentUser).Err? ==>
              fatal == Some(UserLookupFailed(DefaultTag(tag, currentUser).error)) && events == [] && store.files == old(store.files)
    ensures DefaultTag(tag, currentUser).Ok? ==>
              var cfg := Config(tempDir, registryBasePath, DefaultTag(tag, currentUser).value, forceRebuild, pushToRemote, hash, build, push);
              var r := BuildAll(dfh, all, "", [""], cfg, store.faults, old(store.files));
              && (fatal.Some? <==> r.Err?)
              && (r.Err? ==> fatal.value == r.error)
              && (r.Ok? ==> events == r.value.events && store.files == Removed(old(store.files), tempDir))
  {
    var t := DefaultTag(tag, currentUser);
    if t.Err? {
      return Some(UserLookupFailed(t.error)), [];
    }
    var cfg := Config(tempDir, registryBasePath, t.value, forceRebuild, pushToRemote, hash, build, push);
    ghost var files0 := store.files;
    fatal, events := BuildBaseImagesWithChildren(store, dfh, cfg, "", all, [""]);
    if fatal.None? {
      WalkFromRoot(dfh, all, cfg, store.faults, files0);
      store.RemoveDirectory(tempDir);
    }
  }
}
