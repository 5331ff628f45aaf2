/** The image hierarchy (`buildDockerImageHeirarchy` and `getChildImages` in
    dockerbuild/base-images.go): loaded records grouped by the list they
    belong to, the tree of buildable images grown from the external bases,
    and the records that tree never reaches. */
module Hierarchy {
  import opened Wrappers
  import opened Text
  import opened DockerBuild
  import opened FileSystem
  import opened Inventory

  type Heirarchy = map<string, seq<Dockerfile>>

  /** The records of a load. */
  function Records(all: map<string, Dockerfile>): set<Dockerfile> {
    set n | n in all :: all[n]
  }

  /** Every record is stored under its own name, and names are not empty (a
      successful load guarantees both: `Inventory.Loaded`). */
  ghost predicate NamesKeyed(vals: map<string, Record>) {
    forall n :: n in vals ==> vals[n].name == n && n != ""
  }

  /** The list `dfh[k]`, empty when the key is absent. */
  function Children(dfh: Heirarchy, k: string): seq<Dockerfile> {
    if k in dfh then dfh[k] else []
  }

  /** `dfh` groups the records of `all` named in `done`: each sits, once, in
      the list under its key and in no other list, and no list is empty. */
  ghost predicate GroupsOver(dfh: Heirarchy, all: map<string, Dockerfile>, done: set<string>) {
    && (forall k :: k in dfh ==> |dfh[k]| > 0)
    && (forall k, i :: k in dfh && 0 <= i < |dfh[k]| ==>
          dfh[k][i].name in done && dfh[k][i].name in all && all[dfh[k][i].name] == dfh[k][i] && dfh[k][i].Value().Key() == k)
    && (forall n :: n in done && n in all ==> all[n].Value().Key() in dfh && all[n] in dfh[all[n].Value().Key()])
    && (forall k, i, j :: k in dfh && 0 <= i < j < |dfh[k]| ==> dfh[k][i] != dfh[k][j])
  }

  ghost predicate GroupsAll(dfh: Heirarchy, all: map<string, Dockerfile>) {
    GroupsOver(dfh, all, all.Keys)
  }

  /** Lines 107-113: each record, in map order, is appended to the list of
      its parent when the parent is internal and to the root list "" otherwise. */
  method GroupByParent(all: map<string, Dockerfile>) returns (dfh: Heirarchy)
    requires NamesKeyed(Values(all))
    ensures GroupsAll(dfh, all)
    ensures forall n, k :: n in all && k in dfh ==> (all[n] in dfh[k] <==> k == all[n].Value().Key())
  {
    dfh := map[];
    var rest := all.Keys;
    while rest != {}
      invariant rest <= all.Keys
      invariant GroupsOver(dfh, all, all.Keys - rest)
      decreases rest
    {
      var n :| n in rest;
      var df := all[n];
      var key := if df.hasInternalDependencies then df.parentName else "";
      GroupStep(dfh, all, all.Keys - rest, n);
      dfh := dfh[key := Children(dfh, key) + [df]];
      rest := rest - {n};
      assert all.Keys - rest == (all.Keys - (rest + {n})) + {n};
    }
    forall n, k | n in all && k in dfh ensures all[n] in dfh[k] <==> k == all[n].Value().Key() {
      if all[n] in dfh[k] {
        var i :| 0 <= i < |dfh[k]| && dfh[k][i] == all[n];
      }
    }
  }

  /** Appending the record named `n` to its list extends the grouping to `n`. */
  lemma GroupStep(dfh: Heirarchy, all: map<string, Dockerfile>, done: set<string>, n: string)
    requires NamesKeyed(Values(all)) && GroupsOver(dfh, all, done) && n in all && n !in done
    ensures var df := all[n];
            GroupsOver(dfh[df.Value().Key() := Children(dfh, df.Value().Key()) + [df]], all, done + {n})
  {
    var df := all[n];
    assert Values(all)[n] == df.Value();
    var key := df.Value().Key();
    var list := Children(dfh, key) + [df];
    var dfh': Heirarchy := dfh[key := list];
    forall k, i | k in dfh' && 0 <= i < |dfh'[k]|
      ensures dfh'[k][i].name in done + {n} && dfh'[k][i].name in all && all[dfh'[k][i].name] == dfh'[k][i] && dfh'[k][i].Value().Key() == k
    {
      if k == key && i < |Children(dfh, key)| {
        assert dfh'[k][i] == dfh[k][i];
      }
    }
    forall k, i, j | k in dfh' && 0 <= i < j < |dfh'[k]| ensures dfh'[k][i] != dfh'[k][j] {
      if k == key && j == |list| - 1 {
        assert dfh'[k][i] == dfh[k][i];
        assert dfh[k][i].name in done;
      }
    }
    forall m | m in done + {n} && m in all ensures all[m].Value().Key() in dfh' && all[m] in dfh'[all[m].Value().Key()] {
      if m != n && all[m].Value().Key() == key {
        assert all[m] in dfh[key];
        assert dfh[key] <= list;
      }
    }
  }

  /** Following the chain of parent names up from `n`, through loaded records,
      a record whose key is `p` is met within `k` steps. */
  ghost predicate DescendsWithin(vals: map<string, Record>, n: string, p: string, k: nat)
    decreases k
  {
    k > 0 && n in vals && (vals[n].Key() == p || DescendsWithin(vals, n := vals[n].Key(), p := p, k := k - 1))
  }

  /** `n` lies below `p` in the hierarchy. */
  ghost predicate Descends(vals: map<string, Record>, n: string, p: string) {
    exists k: nat :: DescendsWithin(vals, n, p, k)
  }

  /** Following the parent names up from `n` ends at an image with an external base. */
  ghost predicate Rooted(vals: map<string, Record>, n: string) {
    Descends(vals, n, "")
  }

  /** The chain of names from the root list down to the current parent: the
      first is "", they are distinct, and each later one names a record whose
      key is the name before it. It bounds the recursion of `getChildImages`. */
  ghost predicate ValidPath(vals: map<string, Record>, path: seq<string>) {
    && |path| > 0 && path[0] == ""
    && (forall i, j :: 0 <= i < j < |path| ==> path[i] != path[j])
    && (forall i :: 1 <= i < |path| ==> path[i] in vals && vals[path[i]].Key() == path[i - 1])
  }

  ghost function PathSet(path: seq<string>): set<string> {
    set p | p in path
  }

  ghost predicate Setting(dfh: Heirarchy, all: map<string, Dockerfile>, path: seq<string>, parent: string) {
    GroupsAll(dfh, all) && NamesKeyed(Values(all)) && ValidPath(Values(all), path) && path[|path| - 1] == parent
  }

  /** A child of the last name on a valid path extends the path: its name is
      a loaded name not yet on the path. */
  lemma ChildExtendsPath(dfh: Heirarchy, all: map<string, Dockerfile>, path: seq<string>, parent: string, i: nat)
    requires Setting(dfh, all, path, parent) && i < |Children(dfh, parent)|
    ensures var c := Children(dfh, parent)[i].name;
            c in all && c !in path && Setting(dfh, all, path + [c], c) &&
            all.Keys - PathSet(path + [c]) < all.Keys - PathSet(path)
  {
    var vals := Values(all);
    var df := Children(dfh, parent)[i];
    var c := df.name;
    assert all[c] == df && vals[c] == df.Value() && df.Value().Key() == parent;
    forall j | 0 <= j < |path| ensures path[j] != c {
      NotOnPath(vals, path, parent, c, j);
    }
    var path' := path + [c];
    assert ValidPath(vals, path') by {
      forall i', j' | 0 <= i' < j' < |path'| ensures path'[i'] != path'[j'] {
        if j' < |path| { assert path'[i'] == path[i'] && path'[j'] == path[j']; }
      }
      forall i' | 1 <= i' < |path'| ensures path'[i'] in vals && vals[path'[i']].Key() == path'[i' - 1] {
        if i' < |path| { assert path'[i'] == path[i'] && path'[i' - 1] == path[i' - 1]; }
      }
    }
    assert c in all.Keys - PathSet(path) && c !in all.Keys - PathSet(path');
  }

  /** A name whose record's key is the last name of a valid path is not on it. */
  lemma NotOnPath(vals: map<string, Record>, path: seq<string>, parent: string, c: string, j: nat)
    requires NamesKeyed(vals) && ValidPath(vals, path) && path[|path| - 1] == parent
    requires c in vals && vals[c].Key() == parent && j < |path|
    ensures path[j] != c
  {
    if j == 0 {
      assert c != "";
    } else {
      assert vals[path[j]].Key() == path[j - 1];
      assert path[j - 1] != path[|path| - 1] || j - 1 == |path| - 1;
    }
  }

  /** `getChildImages` as a value: one node per entry of the parent's list, in
      list order, each with the images below it. */
  ghost function Forest(dfh: Heirarchy, all: map<string, Dockerfile>, parent: string, path: seq<string>): seq<BuildableImage>
    requires Setting(dfh, all, path, parent)
    decreases all.Keys - PathSet(path), 1, 0
  {
    ForestFrom(dfh, all, parent, path, 0)
  }

  ghost function ForestFrom(dfh: Heirarchy, all: map<string, Dockerfile>, parent: string, path: seq<string>, i: nat): seq<BuildableImage>
    requires Setting(dfh, all, path, parent) && i <= |Children(dfh, parent)|
    decreases all.Keys - PathSet(path), 0, |Children(dfh, parent)| - i
  {
    if i == |Children(dfh, parent)| then []
    else
      var c := Children(dfh, parent)[i].name;
      ChildExtendsPath(dfh, all, path, parent, i);
      [BuildableImage(c, Forest(dfh, all, c, path + [c]))] + ForestFrom(dfh, all, parent, path, i + 1)
  }

  /** The names a tree of buildable images holds. */
  function TreeNames(b: BuildableImage): set<string>
    decreases b
  {
    {b.name} + set c, n | c in b.children && n in TreeNames(c) :: n
  }

  function ForestNames(f: seq<BuildableImage>): set<string> {
    set c, n | c in f && n in TreeNames(c) :: n
  }

  /** The marks of the loaded records. */
  function Marks(all: map<string, Dockerfile>): map<string, bool>
    reads Records(all)
  {
    map n | n in all :: all[n].isBuildable
  }

  /** `marks` with every record below `p` set. */
  ghost function MarkBelow(marks: map<string, bool>, vals: map<string, Record>, p: string): map<string, bool> {
    map n | n in marks :: marks[n] || Descends(vals, n, p)
  }

  /** `marks` with the first `hi` children and the records below them set. */
  ghost function MarkChildren(marks: map<string, bool>, vals: map<string, Record>, children: seq<Dockerfile>, hi: nat): map<string, bool> {
    map n | n in marks :: marks[n] || Below(vals, children, 0, hi, n)
  }

  /** `n` is one of the children of index `lo` to `hi` (excluded), or lies below one of them. */
  ghost predicate Below(vals: map<string, Record>, children: seq<Dockerfile>, lo: nat, hi: nat, n: string) {
    exists j :: lo <= j < hi && j < |children| && (n == children[j].name || Descends(vals, n, children[j].name))
  }

  lemma BelowLow(vals: map<string, Record>, children: seq<Dockerfile>, lo: nat, hi: nat, n: string)
    requires lo < hi <= |children|
    ensures Below(vals, children, lo, hi, n) ==
              (n == children[lo].name || Descends(vals, n, children[lo].name) || Below(vals, children, lo + 1, hi, n))
  {
    if Below(vals, children, lo, hi, n) {
      var j :| lo <= j < hi && j < |children| && (n == children[j].name || Descends(vals, n, children[j].name));
      if j > lo { assert Below(vals, children, lo + 1, hi, n); }
    }
  }

  lemma BelowHigh(vals: map<string, Record>, children: seq<Dockerfile>, lo: nat, hi: nat, n: string)
    requires lo <= hi < |children|
    ensures Below(vals, children, lo, hi + 1, n) ==
              (Below(vals, children, lo, hi, n) || n == children[hi].name || Descends(vals, n, children[hi].name))
  {
    if Below(vals, children, lo, hi + 1, n) {
      var j :| lo <= j < hi + 1 && j < |children| && (n == children[j].name || Descends(vals, n, children[j].name));
      if j < hi { assert Below(vals, children, lo, hi, n); }
    }
  }

  lemma MarkNone(marks: map<string, bool>, vals: map<string, Record>, children: seq<Dockerfile>)
    ensures MarkChildren(marks, vals, children, 0) == marks
  {
  }

  /** Marking child `i` and then everything below it marks the first `i + 1` children's subtrees. */
  lemma MarkStep(marks: map<string, bool>, vals: map<string, Record>, children: seq<Dockerfile>, i: nat)
    requires i < |children| && children[i].name in marks
    ensures MarkBelow(MarkChildren(marks, vals, children, i)[children[i].name := true], vals, children[i].name) ==
            MarkChildren(marks, vals, children, i + 1)
  {
    var c := children[i].name;
    var before := MarkChildren(marks, vals, children, i)[c := true];
    forall n | n in marks ensures MarkBelow(before, vals, c)[n] == MarkChildren(marks, vals, children, i + 1)[n] {
      BelowHigh(vals, children, 0, i, n);
    }
  }

  /** `df.isBuildable = true`: changes exactly the mark of `df`'s name. */
  method MarkBuildable(df: Dockerfile, ghost all: map<string, Dockerfile>)
    requires NamesKeyed(Values(all)) && df.name in all && all[df.name] == df
    modifies df
    ensures Marks(all) == old(Marks(all))[df.name := true]
  {
    df.isBuildable := true;
    forall n | n in all && n != df.name ensures all[n] != df {
      assert Values(all)[n] == all[n].Value();
    }
  }

  /** Lines 130-143: marks every record of the parent's list buildable and
      recurses on its name; returns the forest below `parent`. */
  method GetChildImages(dfh: Heirarchy, parent: string, ghost all: map<string, Dockerfile>, ghost path: seq<string>)
    returns (imageHeirarchy: seq<BuildableImage>)
    requires Setting(dfh, all, path, parent)
    modifies Records(all)
    ensures imageHeirarchy == Forest(dfh, all, parent, path)
    ensures Marks(all) == MarkBelow(old(Marks(all)), Values(all), parent)
    decreases all.Keys - PathSet(path), 1
  {
    ghost var vals := Values(all);
    ghost var start := Marks(all);
    imageHeirarchy := [];
    var children := Children(dfh, parent);
    var i := 0;
    MarkNone(start, vals, children);
    while i < |children|
      invariant 0 <= i <= |children|
      invariant Forest(dfh, all, parent, path) == imageHeirarchy + ForestFrom(dfh, all, parent, path, i)
      invariant Marks(all) == MarkChildren(start, vals, children, i)
    {
      var node := MarkChild(dfh, parent, i, all, path);
      MarkStep(start, vals, children, i);
      ForestStep(dfh, all, parent, path, i);
      AppendOne(imageHeirarchy, node, ForestFrom(dfh, all, parent, path, i + 1));
      imageHeirarchy := imageHeirarchy + [node];
      i := i + 1;
    }
    MarkAll(start, dfh, all, parent);
  }

  /** The body of the loop of `getChildImages` for the `i`-th child `c`:
      marks `c` and builds its node from the images below it. */
  method MarkChild(dfh: Heirarchy, parent: string, i: nat, ghost all: map<string, Dockerfile>, ghost path: seq<string>)
    returns (node: BuildableImage)
    requires Setting(dfh, all, path, parent) && i < |Children(dfh, parent)|
    modifies Records(all)
    ensures var c := Children(dfh, parent)[i].name;
            Setting(dfh, all, path + [c], c) &&
            node == BuildableImage(c, Forest(dfh, all, c, path + [c])) &&
            Marks(all) == MarkBelow(old(Marks(all))[c := true], Values(all), c)
    decreases all.Keys - PathSet(path), 0
  {
    var df := Children(dfh, parent)[i];
    ChildExtendsPath(dfh, all, path, parent, i);
    assert all[df.name] == df;
    MarkBuildable(df, all);
    var sub := GetChildImages(dfh, df.name, all, path + [df.name]);
    node := BuildableImage(df.name, sub);
  }

  lemma AppendOne<T>(a: seq<T>, x: T, b: seq<T>)
    ensures a + ([x] + b) == (a + [x]) + b
  {
  }

  /** One entry of the forest is the node of one child. */
  lemma ForestStep(dfh: Heirarchy, all: map<string, Dockerfile>, parent: string, path: seq<string>, i: nat)
    requires Setting(dfh, all, path, parent) && i < |Children(dfh, parent)|
    ensures var c := Children(dfh, parent)[i].name;
            Setting(dfh, all, path + [c], c) &&
            ForestFrom(dfh, all, parent, path, i) ==
              [BuildableImage(c, Forest(dfh, all, c, path + [c]))] + ForestFrom(dfh, all, parent, path, i + 1)
  {
    ChildExtendsPath(dfh, all, path, parent, i);
  }

  /** Marking every child's subtree marks everything below the parent. */
  lemma MarkAll(marks: map<string, bool>, dfh: Heirarchy, all: map<string, Dockerfile>, parent: string)
    requires GroupsAll(dfh, all) && NamesKeyed(Values(all))
    ensures MarkChildren(marks, Values(all), Children(dfh, parent), |Children(dfh, parent)|) == MarkBelow(marks, Values(all), parent)
  {
    forall n | n in marks
      ensures MarkChildren(marks, Values(all), Children(dfh, parent), |Children(dfh, parent)|)[n] == MarkBelow(marks, Values(all), parent)[n]
    {
      DescendsUnfold(dfh, all, parent, n);
    }
  }

  /** One step further up: below `m` and `m`'s key is `p` gives below `p`. */
  lemma {:induction false} DescendsExtend(vals: map<string, Record>, n: string, m: string, p: string, k: nat)
    requires DescendsWithin(vals, n, m, k) && m in vals && vals[m].Key() == p
    ensures DescendsWithin(vals, n, p, k + 1)
    decreases k
  {
    if vals[n].Key() != m {
      DescendsExtend(vals, vals[n].Key(), m, p, k - 1);
    }
  }

  /** Below `p` means: a child of `p`, or below one. */
  lemma DescendsUnfold(dfh: Heirarchy, all: map<string, Dockerfile>, p: string, n: string)
    requires GroupsAll(dfh, all) && NamesKeyed(Values(all))
    ensures Below(Values(all), Children(dfh, p), 0, |Children(dfh, p)|, n) == Descends(Values(all), n, p)
  {
    var vals := Values(all);
    var children := Children(dfh, p);
    if Below(vals, children, 0, |children|, n) {
      var j :| 0 <= j < |children| && (n == children[j].name || Descends(vals, n, children[j].name));
      var c := children[j];
      assert all[c.name] == c && vals[c.name] == c.Value() && c.Value().Key() == p;
      if n == c.name {
        assert DescendsWithin(vals, n, p, 1);
      } else {
        var k: nat :| DescendsWithin(vals, n, c.name, k);
        DescendsExtend(vals, n, c.name, p, k);
      }
    }
    if Descends(vals, n, p) {
      var k: nat :| DescendsWithin(vals, n, p, k);
      DescendsSplit(dfh, all, p, n, k);
    }
  }

  lemma {:induction false} DescendsSplit(dfh: Heirarchy, all: map<string, Dockerfile>, p: string, n: string, k: nat)
    requires GroupsAll(dfh, all) && NamesKeyed(Values(all))
    requires DescendsWithin(Values(all), n, p, k)
    ensures Below(Values(all), Children(dfh, p), 0, |Children(dfh, p)|, n)
    decreases k
  {
    var vals := Values(all);
    var children := Children(dfh, p);
    var q := vals[n].Key();
    assert vals[n] == all[n].Value();
    if q == p {
      var j :| 0 <= j < |dfh[p]| && dfh[p][j] == all[n];
      assert n == children[j].name;
    } else {
      DescendsSplit(dfh, all, p, q, k - 1);
      var j :| 0 <= j < |children| && (q == children[j].name || Descends(vals, q, children[j].name));
      if q == children[j].name {
        assert DescendsWithin(vals, n, q, 1);
      } else {
        var k': nat :| DescendsWithin(vals, q, children[j].name, k');
        assert DescendsWithin(vals, n, children[j].name, k' + 1);
      }
    }
  }

  /** The forest below `parent` names exactly the records below `parent`. */
  lemma {:induction false} ForestNamesAreDescendants(dfh: Heirarchy, all: map<string, Dockerfile>, parent: string, path: seq<string>, n: string)
    requires Setting(dfh, all, path, parent)
    ensures n in ForestNames(Forest(dfh, all, parent, path)) <==> Descends(Values(all), n, parent)
    decreases all.Keys - PathSet(path), 1, 0
  {
    ForestFromNames(dfh, all, parent, path, 0, n);
    DescendsUnfold(dfh, all, parent, n);
  }

  lemma {:induction false} ForestFromNames(dfh: Heirarchy, all: map<string, Dockerfile>, parent: string, path: seq<string>, i: nat, n: string)
    requires Setting(dfh, all, path, parent) && i <= |Children(dfh, parent)|
    ensures n in ForestNames(ForestFrom(dfh, all, parent, path, i)) <==>
              Below(Values(all), Children(dfh, parent), i, |Children(dfh, parent)|, n)
    decreases all.Keys - PathSet(path), 0, |Children(dfh, parent)| - i
  {
    var children := Children(dfh, parent);
    if i < |children| {
      var c := children[i].name;
      ChildExtendsPath(dfh, all, path, parent, i);
      var head := BuildableImage(c, Forest(dfh, all, c, path + [c]));
      var tail := ForestFrom(dfh, all, parent, path, i + 1);
      assert ForestFrom(dfh, all, parent, path, i) == [head] + tail;
      ForestNamesConcat(head, tail);
      ForestNamesAreDescendants(dfh, all, c, path + [c], n);
      ForestFromNames(dfh, all, parent, path, i + 1, n);
      BelowLow(Values(all), children, i, |children|, n);
    }
  }

  lemma ForestNamesConcat(head: BuildableImage, tail: seq<BuildableImage>)
    ensures ForestNames([head] + tail) == {head.name} + ForestNames(head.children) + ForestNames(tail)
  {
    var f := [head] + tail;
    assert TreeNames(head) == {head.name} + ForestNames(head.children);
    forall n | n in ForestNames(f) ensures n in TreeNames(head) || n in ForestNames(tail) {
      var c :| c in f && n in TreeNames(c);
      if c != head { assert c in tail; }
    }
    forall n | n in ForestNames(tail) ensures n in ForestNames(f) {
      var c :| c in tail && n in TreeNames(c);
      assert c in f;
    }
    forall n | n in TreeNames(head) ensures n in ForestNames(f) {
      assert head in f;
    }
  }

  /** Lines 117-125: every record the walk left unmarked, named with the
      parent it declares; the map order is left open. */
  method CollectOrphans(all: map<string, Dockerfile>) returns (oi: seq<OrphanedImage>)
    requires NamesKeyed(Values(all))
    ensures forall j :: 0 <= j < |oi| ==>
              oi[j].name in all && !all[oi[j].name].isBuildable && oi[j].parentName == all[oi[j].name].parentName
    ensures forall n :: n in all && !all[n].isBuildable ==> exists j :: 0 <= j < |oi| && oi[j].name == n
    ensures forall j, j' :: 0 <= j < j' < |oi| ==> oi[j].name != oi[j'].name
  {
    oi := [];
    var rest := all.Keys;
    while rest != {}
      invariant rest <= all.Keys
      invariant forall j :: 0 <= j < |oi| ==>
                  oi[j].name in all && oi[j].name !in rest && !all[oi[j].name].isBuildable && oi[j].parentName == all[oi[j].name].parentName
      invariant forall n :: n in all && n !in rest && !all[n].isBuildable ==> exists j :: 0 <= j < |oi| && oi[j].name == n
      invariant forall j, j' :: 0 <= j < j' < |oi| ==> oi[j].name != oi[j'].name
      decreases rest
    {
      var n :| n in rest;
      var df := all[n];
      assert df.name == n by { assert Values(all)[n] == df.Value(); }
      ghost var before := oi;
      if !df.isBuildable {
        oi := oi + [OrphanedImage(df.name, df.parentName)];
        assert oi[|oi| - 1].name == n;
      }
      forall m | m in all && m !in rest - {n} && !all[m].isBuildable ensures exists j :: 0 <= j < |oi| && oi[j].name == m {
        if m != n {
          var j :| 0 <= j < |before| && before[j].name == m;
          assert oi[j] == before[j];
        }
      }
      rest := rest - {n};
    }
  }

  /** Lines 103-128: loads the records below the instruction-file root,
      groups them, grows the forest from the root list "" and collects what
      it never reached. An image is marked, and lies in the forest, exactly
      when the chain of its parents ends at an external base; the others are
      the orphans, each once. */
  method BuildDockerImageHierarchy(root: string, tree: Entry)
    returns (fatal: Option<Fatal>, dfh: Heirarchy, bi: seq<BuildableImage>, oi: seq<OrphanedImage>, ghost all: map<string, Dockerfile>)
    requires !tree.File?
    ensures fatal.Some? <==> LoadDirectory(root, "", tree).Err?
    ensures fatal.Some? ==> fatal.value == LoadDirectory(root, "", tree).error
    ensures fatal.None? ==>
              && Values(all) == LoadDirectory(root, "", tree).value
              && GroupsAll(dfh, all) && NamesKeyed(Values(all))
              && bi == Forest(dfh, all, "", [""])
              && (forall n :: n in all ==> (all[n].isBuildable <==> Rooted(Values(all), n)))
              && (forall n :: n in ForestNames(bi) <==> n in all && Rooted(Values(all), n))
              && (forall j :: 0 <= j < |oi| ==>
                    oi[j].name in all && !Rooted(Values(all), oi[j].name) && oi[j].parentName == all[oi[j].name].parentName)
              && (forall n :: n in all && !Rooted(Values(all), n) ==> exists j :: 0 <= j < |oi| && oi[j].name == n)
              && (forall j, j' :: 0 <= j < j' < |oi| ==> oi[j].name != oi[j'].name)
  {
    dfh, bi, oi, all := map[], [], [], map[];
    var loaded := LoadBaseImageDockerfiles(root, "", tree);
    if loaded.Err? {
      fatal := Some(loaded.error);
      return;
    }
    fatal := None;
    var allImages := loaded.value;
    all := allImages;
    LoadDirectorySound(root, "", tree);
    assert NamesKeyed(Values(all)) by {
      forall n | n in Values(all) ensures Values(all)[n].name == n && n != "" {
        assert Loaded(root, "", tree, n, Values(all)[n]);
      }
    }
    dfh := GroupByParent(allImages);
    ghost var vals := Values(all);
    assert Setting(dfh, all, [""], "");
    bi := GetChildImages(dfh, "", all, [""]);
    forall n | n in all ensures all[n].isBuildable <==> Rooted(vals, n) {
      assert Marks(all)[n] == all[n].isBuildable;
    }
    forall n ensures n in ForestNames(bi) <==> n in all && Rooted(vals, n) {
      ForestNamesAreDescendants(dfh, all, "", [""], n);
      if Rooted(vals, n) {
        var k: nat :| DescendsWithin(vals, n, "", k);
      }
    }
    oi := CollectOrphans(allImages);
  }

  /** Loaded names for a small hierarchy: `base` is built on an external
      image, `mid` on `base`; `stray` asks for an internal parent nobody
      provides, and `loop` names itself as its parent. */
  function Sample(): map<string, Record> {
    map[
      "base" := Record("base", "ubuntu", "images/base", false),
      "mid" := Record("mid", "base", "images/mid", true),
      "stray" := Record("stray", "missing", "images/stray", true),
      "loop" := Record("loop", "loop", "images/loop", true)]
  }

  /** An image that names itself as its internal parent is never reached. */
  lemma {:induction false} SelfParentUnrooted(vals: map<string, Record>, n: string, k: nat)
    requires n != "" && n in vals && vals[n].Key() == n
    ensures !DescendsWithin(vals, n, "", k)
    decreases k
  {
    if k > 0 {
      SelfParentUnrooted(vals, n, k - 1);
    }
  }

  /** An image whose internal parent is not loaded is never reached. */
  lemma MissingParentUnrooted(vals: map<string, Record>, n: string, k: nat)
    requires n in vals && vals[n].Key() != "" && vals[n].Key() !in vals
    ensures !DescendsWithin(vals, n, "", k)
  {
  }

  lemma SampleHierarchy()
    ensures Rooted(Sample(), "base") && Rooted(Sample(), "mid")
    ensures !Rooted(Sample(), "stray") && !Rooted(Sample(), "loop")
  {
    var v := Sample();
    assert DescendsWithin(v, "base", "", 1);
    assert DescendsWithin(v, "mid", "", 2);
    forall k: nat ensures !DescendsWithin(v, "stray", "", k) && !DescendsWithin(v, "loop", "", k) {
      MissingParentUnrooted(v, "stray", k);
      SelfParentUnrooted(v, "loop", k);
    }
  }

  // Ancestry along the walk

  /** What lies above a name on the path is on the path before it. */
  lemma {:induction false} AncestorsOnPath(vals: map<string, Record>, path: seq<string>, j: nat, q: string, k: nat)
    requires NamesKeyed(vals) && ValidPath(vals, path) && j < |path|
    requires DescendsWithin(vals, path[j], q, k)
    ensures q in path[..j]
    decreases j
  {
    assert path[j] in vals;
    assert path[j] != "";
    var m := vals[path[j]].Key();
    assert m == path[j - 1];
    if m != q {
      AncestorsOnPath(vals, path, j - 1, q, k - 1);
      assert path[..j - 1] <= path[..j];
    }
  }

  /** What lies above a child of the current parent is on the path. */
  lemma AboveChild(dfh: Heirarchy, all: map<string, Dockerfile>, path: seq<string>, parent: string, i: nat, q: string, k: nat)
    requires Setting(dfh, all, path, parent) && i < |Children(dfh, parent)|
    requires DescendsWithin(Values(all), Children(dfh, parent)[i].name, q, k)
    ensures q in path
  {
    var vals := Values(all);
    var c := Children(dfh, parent)[i];
    assert all[c.name] == c && vals[c.name] == c.Value() && c.Value().Key() == parent;
    if q != parent {
      AncestorsOnPath(vals, path, |path| - 1, q, k - 1);
    }
  }

  /** Two ancestors of one name are the same or one lies below the other. */
  lemma {:induction false} ChainComparable(vals: map<string, Record>, n: string, p: string, q: string, k1: nat, k2: nat)
    requires DescendsWithin(vals, n, p, k1) && DescendsWithin(vals, n, q, k2)
    ensures p == q || Descends(vals, p, q) || Descends(vals, q, p)
    decreases k1
  {
    var m := vals[n].Key();
    if m == p {
      if m != q { assert DescendsWithin(vals, p, q, k2 - 1); }
    } else if m == q {
      assert DescendsWithin(vals, q, p, k1 - 1);
    } else {
      ChainComparable(vals, m, p, q, k1 - 1, k2 - 1);
    }
  }

  /** No child of the current parent lies below itself. */
  lemma NoSelfDescent(dfh: Heirarchy, all: map<string, Dockerfile>, path: seq<string>, parent: string, i: nat)
    requires Setting(dfh, all, path, parent) && i < |Children(dfh, parent)|
    ensures var c := Children(dfh, parent)[i].name; !Descends(Values(all), c, c)
  {
    var c := Children(dfh, parent)[i].name;
    ChildExtendsPath(dfh, all, path, parent, i);
    if Descends(Values(all), c, c) {
      var k: nat :| DescendsWithin(Values(all), c, c, k);
      AboveChild(dfh, all, path, parent, i, c, k);
      assert false;
    }
  }

  /** The subtrees of two different children of the current parent share no name. */
  lemma SiblingsApart(dfh: Heirarchy, all: map<string, Dockerfile>, path: seq<string>, parent: string, i: nat, j: nat, n: string)
    requires Setting(dfh, all, path, parent) && i < j < |Children(dfh, parent)|
    ensures var vals := Values(all); var ci := Children(dfh, parent)[i].name; var cj := Children(dfh, parent)[j].name;
            !((n == ci || Descends(vals, n, ci)) && (n == cj || Descends(vals, n, cj)))
  {
    var vals := Values(all);
    var di, dj := Children(dfh, parent)[i], Children(dfh, parent)[j];
    var ci, cj := di.name, dj.name;
    assert all[ci] == di && all[cj] == dj && di != dj;
    ChildExtendsPath(dfh, all, path, parent, i);
    ChildExtendsPath(dfh, all, path, parent, j);
    if n == ci && Descends(vals, n, cj) {
      var k: nat :| DescendsWithin(vals, ci, cj, k);
      AboveChild(dfh, all, path, parent, i, cj, k);
    } else if n == cj && Descends(vals, n, ci) {
      var k: nat :| DescendsWithin(vals, cj, ci, k);
      AboveChild(dfh, all, path, parent, j, ci, k);
    } else if Descends(vals, n, ci) && Descends(vals, n, cj) {
      var k1: nat :| DescendsWithin(vals, n, ci, k1);
      var k2: nat :| DescendsWithin(vals, n, cj, k2);
      ChainComparable(vals, n, ci, cj, k1, k2);
      if Descends(vals, ci, cj) {
        var k: nat :| DescendsWithin(vals, ci, cj, k);
        AboveChild(dfh, all, path, parent, i, cj, k);
      } else if Descends(vals, cj, ci) {
        var k: nat :| DescendsWithin(vals, cj, ci, k);
        AboveChild(dfh, all, path, parent, j, ci, k);
      }
    }
  }
}
