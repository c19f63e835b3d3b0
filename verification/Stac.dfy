/** What run_cwl does with a tool's STAC output: copy, rename the root, move the items, make asset
    links absolute. */
module Stac {
  import opened Options
  import opened Json
  import opened Paths
  import opened Items

  /** A directory tree: its files and its directories, by path from the top. */
  datatype Tree = Tree(files: map<Path, File>, dirs: set<Path>)

  ghost predicate IsTree(t: Tree) {
    && [] in t.dirs && t.files.Keys !! t.dirs
    && forall p | p in t.files.Keys + t.dirs ::
        AreNames(p) && ".." !in p && (p != [] ==> p[..|p| - 1] in t.dirs)
  }

  predicate Exists(t: Tree, p: Path) {
    p in t.files || p in t.dirs
  }

  /** Following path components from a directory. */
  function Walk(t: Tree, at: Path, comps: Path): Option<Path>
    decreases |comps|
  {
    if comps == [] then if Exists(t, at) then Some(at) else None
    else if at !in t.dirs then None
    else if comps[0] == ".." then if at == [] then None else Walk(t, at[..|at| - 1], comps[1..])
    else Walk(t, at + [comps[0]], comps[1..])
  }

  // Finding the root.

  const ROOT_NAMES := ["catalog.json", "catalogue.json", "collection.json"]

  /** `r` is the root of directory `d`: its catalog, else its catalogue, else its collection. */
  predicate RootIn(t: Tree, d: Path, r: Path) {
    || (Exists(t, d + ["catalog.json"]) && r == d + ["catalog.json"])
    || (!Exists(t, d + ["catalog.json"]) && Exists(t, d + ["catalogue.json"]) && r == d + ["catalogue.json"])
    || (!Exists(t, d + ["catalog.json"]) && !Exists(t, d + ["catalogue.json"]) && Exists(t, d + ["collection.json"])
        && r == d + ["collection.json"])
  }

  predicate NoRoot(t: Tree, d: Path) {
    !Exists(t, d + ["catalog.json"]) && !Exists(t, d + ["catalogue.json"]) && !Exists(t, d + ["collection.json"])
  }

  method RootOf(t: Tree, d: Path) returns (r: Option<Path>)
    ensures match r case None => NoRoot(t, d) case Some(p) => RootIn(t, d, p)
  {
    var i := 0;
    assert ROOT_NAMES[0] == "catalog.json" && ROOT_NAMES[1] == "catalogue.json" && ROOT_NAMES[2] == "collection.json";
    while i < |ROOT_NAMES|
      invariant 0 <= i <= |ROOT_NAMES| == 3
      invariant i > 0 ==> !Exists(t, d + [ROOT_NAMES[0]])
      invariant i > 1 ==> !Exists(t, d + [ROOT_NAMES[1]])
      invariant i > 2 ==> !Exists(t, d + [ROOT_NAMES[2]])
    {
      var candidate := d + [ROOT_NAMES[i]];
      if Exists(t, candidate) { return Some(candidate); }
      i := i + 1;
    }
    return None;
  }

  /** _find_stac_root: the top of the output first, then its directories in sorted order. */
  method FindStacRoot(t: Tree, listing: seq<string>) returns (r: Option<Path>)
    ensures match r
      case Some(p) =>
        || RootIn(t, [], p)
        || (NoRoot(t, []) && exists i ::
              && 0 <= i < |listing| && [listing[i]] in t.dirs && RootIn(t, [listing[i]], p)
              && forall k | 0 <= k < i :: [listing[k]] in t.dirs ==> NoRoot(t, [listing[k]]))
      case None => NoRoot(t, []) && forall k | 0 <= k < |listing| :: [listing[k]] in t.dirs ==> NoRoot(t, [listing[k]])
  {
    r := RootOf(t, []);
    if r.Some? { return; }
    var i := 0;
    while i < |listing|
      invariant 0 <= i <= |listing|
      invariant forall k | 0 <= k < i :: [listing[k]] in t.dirs ==> NoRoot(t, [listing[k]])
    {
      if [listing[i]] in t.dirs {
        r := RootOf(t, [listing[i]]);
        if r.Some? { return; }
      }
      i := i + 1;
    }
    r := None;
  }

  // The steps of the restructuring.

  predicate IsJson(name: string) {
    |name| > 5 && name[|name| - 5..] == ".json"
  }

  function CollectionName(job: string): string {
    job + ".json"
  }

  /** The root takes the name of the job, over any file of that name. */
  function Renamed(t: Tree, root: string, job: string): Tree
    requires [root] in t.files
  {
    if root == CollectionName(job) then t
    else t.(files := (t.files - {[root]})[[CollectionName(job)] := t.files[[root]]])
  }

  predicate IsFeature(f: File) {
    f.Doc? && f.json.Dict? && Lookup(f.json.fields, "type") == Str("Feature")
  }

  /** A top-level item. */
  predicate Moves(t: Tree, job: string, n: string) {
    [n] in t.files && IsJson(n) && n != CollectionName(job) && IsFeature(t.files[[n]])
  }

  /** The items among `names`. */
  function Moving(t: Tree, job: string, names: set<string>): set<string> {
    set n | n in names && Moves(t, job, n)
  }

  /** `p` is a top-level path among `names`. */
  predicate OnTop(names: set<string>, p: Path) {
    |p| == 1 && p[0] in names
  }

  /** `p` is a path into items/ among `names`. */
  predicate Inside(names: set<string>, p: Path) {
    |p| == 2 && p[0] == "items" && p[1] in names
  }

  function PathsInside(names: set<string>): (ps: set<Path>)
    ensures forall p :: p in ps <==> Inside(names, p)
  {
    var ps := set n | n in names :: ["items", n];
    assert forall p | Inside(names, p) :: p == ["items", p[1]];
    ps
  }

  /** The files with those on top among `names` in items/ instead. */
  function Shifted(files: map<Path, File>, names: set<string>): map<Path, File>
    requires forall n | n in names :: [n] in files
  {
    map p | p in files.Keys + PathsInside(names) && !OnTop(names, p) :: if Inside(names, p) then files[[p[1]]] else files[p]
  }

  /** The tree with the items among `names` moved into items/. */
  function MovedSome(t: Tree, job: string, names: set<string>): Tree {
    Tree(Shifted(t.files, Moving(t, job, names)), t.dirs + {["items"]})
  }

  function TopNames(t: Tree): set<string> {
    set p | p in t.files.Keys + t.dirs && |p| == 1 :: p[0]
  }

  function Moved(t: Tree, job: string): Tree {
    MovedSome(t, job, TopNames(t))
  }

  predicate InItems(p: Path) {
    |p| == 2 && p[0] == "items" && IsJson(p[1])
  }

  /** An asset link after the last step: a relative one that names something of the tree, once its
      leading dots and slashes are gone, becomes the absolute path. */
  function Linked(base: Path, t: Tree, h: string): string {
    if h != "" && h[0] == '/' then h
    else
      var c := Components(StripDots(h));
      if Walk(t, [], c).Some? then Absolute(base + c) else h
  }

  function LinkedAll(base: Path, t: Tree, hs: seq<string>): seq<string> {
    seq(|hs|, i requires 0 <= i < |hs| => Linked(base, t, hs[i]))
  }

  function LinkedFile(base: Path, t: Tree, f: File): File {
    match f
    case Doc(item) => Doc(SetHrefs(item, LinkedAll(base, t, Hrefs(item))))
    case Raw(_) => f
  }

  /** The tree with the item files among `names` re-linked. */
  function LinkedSome(base: Path, t: Tree, names: set<string>): Tree {
    t.(files := map p | p in t.files :: if InItems(p) && p[1] in names then LinkedFile(base, t, t.files[p]) else t.files[p])
  }

  function ItemNames(t: Tree): (names: set<string>)
    ensures forall n | n in names :: Exists(t, ["items", n])
  {
    assert forall p: Path | |p| == 2 && p[0] == "items" :: p == ["items", p[1]];
    set p | p in t.files.Keys + t.dirs && |p| == 2 && p[0] == "items" :: p[1]
  }

  function Relinked(base: Path, t: Tree): Tree {
    LinkedSome(base, t, ItemNames(t))
  }

  /** The STAC directory of a job whose tool produced `t`. */
  function Restructured(base: Path, t: Tree, root: string, job: string): Tree
    requires [root] in t.files
  {
    Relinked(base, Moved(Renamed(t, root, job), job))
  }

  /** Every item file can be read and walked. */
  ghost predicate Readable(t: Tree) {
    forall n | IsJson(n) ::
      ["items", n] !in t.dirs && (["items", n] in t.files ==> t.files[["items", n]].Doc? && Shaped(t.files[["items", n]].json))
  }

  /** Nothing raises: the names it creates are not taken by the wrong kind, and the items are readable. */
  ghost predicate Works(t: Tree, root: string, job: string)
    requires [root] in t.files
  {
    && (root == CollectionName(job) || [CollectionName(job)] !in t.dirs)
    && ["items"] !in t.files
    && Readable(Moved(Renamed(t, root, job), job))
  }

  ghost predicate NoItemDirs(t: Tree) {
    forall n | IsJson(n) :: ["items", n] !in t.dirs
  }

  lemma ShiftNext(files: map<Path, File>, names: set<string>, n: string)
    requires [n] in files && n !in names && forall k | k in names :: [k] in files
    ensures [n] in Shifted(files, names) && Shifted(files, names)[[n]] == files[[n]]
    ensures Shifted(files, names + {n}) == (Shifted(files, names) - {[n]})[["items", n] := files[[n]]]
  {
    var before, after := Shifted(files, names), Shifted(files, names + {n});
    var expected := (before - {[n]})[["items", n] := files[[n]]];
    forall p ensures (p in after <==> p in expected) && (p in after ==> after[p] == expected[p]) {
      assert OnTop(names + {n}, p) <==> OnTop(names, p) || p == [n];
      assert Inside(names + {n}, p) <==> Inside(names, p) || p == ["items", n];
    }
    assert after == expected;
  }

  lemma MoveNext(t: Tree, job: string, names: set<string>, n: string)
    requires n !in names
    ensures var before, after := MovedSome(t, job, names), MovedSome(t, job, names + {n});
      && (!Moves(t, job, n) ==> after == before)
      && (Moves(t, job, n) ==>
          && [n] in before.files && before.files[[n]] == t.files[[n]]
          && after.files == (before.files - {[n]})[["items", n] := t.files[[n]]])
  {
    var m := Moving(t, job, names);
    assert Moving(t, job, names + {n}) == if Moves(t, job, n) then m + {n} else m;
    if Moves(t, job, n) { ShiftNext(t.files, m, n); }
  }

  lemma {:induction false} WalkSame(t: Tree, u: Tree, at: Path, comps: Path)
    requires t.files.Keys == u.files.Keys && t.dirs == u.dirs
    ensures Walk(t, at, comps) == Walk(u, at, comps)
    decreases |comps|
  {
    if comps != [] && at in t.dirs {
      if comps[0] != ".." { WalkSame(t, u, at + [comps[0]], comps[1..]); }
      else if at != [] { WalkSame(t, u, at[..|at| - 1], comps[1..]); }
    }
  }

  lemma LinkedFileSame(base: Path, t: Tree, u: Tree, f: File)
    requires t.files.Keys == u.files.Keys && t.dirs == u.dirs
    ensures LinkedFile(base, t, f) == LinkedFile(base, u, f)
  {
    if f.Doc? {
      var hs := Hrefs(f.json);
      forall i | 0 <= i < |hs| ensures Linked(base, t, hs[i]) == Linked(base, u, hs[i]) {
        WalkSame(t, u, [], Components(StripDots(hs[i])));
      }
      assert LinkedAll(base, t, hs) == LinkedAll(base, u, hs);
    }
  }

  ghost predicate ReadableSome(t: Tree, names: set<string>) {
    forall n | n in names && IsJson(n) && ["items", n] in t.files :: t.files[["items", n]].Doc? && Shaped(t.files[["items", n]].json)
  }

  lemma LinkedNone(base: Path, t: Tree)
    ensures LinkedSome(base, t, {}) == t
  {
    assert LinkedSome(base, t, {}).files == t.files;
  }

  lemma LinkNext(base: Path, t: Tree, done: set<string>, n: string)
    requires n !in done
    ensures var before, after := LinkedSome(base, t, done), LinkedSome(base, t, done + {n});
      if IsJson(n) && ["items", n] in t.files then
        && before.files[["items", n]] == t.files[["items", n]]
        && after.files == before.files[["items", n] := LinkedFile(base, before, t.files[["items", n]])]
      else after == before
  {
    var before, after := LinkedSome(base, t, done), LinkedSome(base, t, done + {n});
    assert before.files.Keys == t.files.Keys;
    forall p | InItems(p) && p[1] == n ensures p == ["items", n] { }
    if IsJson(n) && ["items", n] in t.files {
      LinkedFileSame(base, t, before, t.files[["items", n]]);
      assert after.files == before.files[["items", n] := LinkedFile(base, before, t.files[["items", n]])];
    } else {
      assert after.files == before.files;
    }
  }

  lemma LinkedAllNames(base: Path, t: Tree, names: set<string>)
    requires forall p | p in t.files && InItems(p) :: p[1] in names
    ensures LinkedSome(base, t, names) == Relinked(base, t)
  {
    assert forall p | p in t.files && InItems(p) :: p[1] in ItemNames(t);
    assert LinkedSome(base, t, names).files == Relinked(base, t).files;
  }

  lemma SuffixDiffers(job: string)
    ensures CollectionName(job) != "items"
  {
    assert CollectionName(job)[|CollectionName(job)| - 1] == 'n';
  }

  /** Where a job's STAC directory is, and what it holds. */
  class StacDirectory {
    const base: Path
    var tree: Tree

    constructor (base: Path, tree: Tree)
      ensures this.base == base && this.tree == tree
    {
      this.base := base;
      this.tree := tree;
    }

    /** The tail of run_cwl, from the copy on. What was in the directory is deleted first. False when
        it raises. */
    method Restructure(tool: Tree, root: string, job: string) returns (ok: bool)
      requires base != [] && [root] in tool.files && IsJson(root)
      modifies this
      ensures ok <==> Works(tool, root, job)
      ensures ok ==> tree == Restructured(base, tool, root, job)
    {
      tree := tool;
      SuffixDiffers(job);
      if root != CollectionName(job) {
        if [CollectionName(job)] in tree.dirs { return false; }
        tree := tree.(files := (tree.files - {[root]})[[CollectionName(job)] := tree.files[[root]]]);
      }
      if ["items"] in tree.files { return false; }
      tree := tree.(dirs := tree.dirs + {["items"]});
      MoveItems(Renamed(tool, root, job), job);
      ok := LinkItems(Moved(Renamed(tool, root, job), job));
    }

    /** Moves the items among the top-level files, in any order. A move onto a directory goes into it,
        or is given up when the name is taken there too. */
    method MoveItems(ghost t: Tree, job: string)
      requires tree == t.(dirs := t.dirs + {["items"]})
      modifies this
      ensures tree.dirs == t.dirs + {["items"]}
      ensures NoItemDirs(tree) ==> tree == Moved(t, job)
    {
      var left := TopNames(tree);
      ghost var all, done := left, {};
      while left != {}
        invariant left !! done && left + done == all
        invariant tree.dirs == t.dirs + {["items"]}
        invariant NoItemDirs(tree) ==> tree == MovedSome(t, job, done)
      {
        var n :| n in left;
        MoveNext(t, job, done, n);
        if IsJson(n) && n != CollectionName(job) && [n] in tree.files && IsFeature(tree.files[[n]]) {
          var target := ["items", n];
          if target in tree.dirs { target := target + [n]; }
          if |target| == 2 || !Exists(tree, target) {
            tree := tree.(files := (tree.files - {[n]})[target := tree.files[[n]]]);
          }
        }
        left, done := left - {n}, done + {n};
      }
      assert TopNames(t.(dirs := t.dirs + {["items"]})) == TopNames(t) + {"items"};
      assert Moving(t, job, all) == Moving(t, job, TopNames(t));
    }

    /** Re-links the item files in items/, in any order. False when one cannot be read or walked. */
    method LinkItems(ghost t: Tree) returns (ok: bool)
      requires base != [] && tree.dirs == t.dirs && (NoItemDirs(tree) ==> tree == t)
      modifies this
      ensures ok <==> Readable(t)
      ensures ok ==> tree == Relinked(base, t)
    {
      var left := ItemNames(tree);
      ghost var all, done := left, {};
      LinkedNone(base, t);
      while left != {}
        invariant left !! done && left + done == all && tree.dirs == t.dirs && tree.files.Keys == old(tree.files.Keys)
        invariant forall n | n in done && IsJson(n) :: ["items", n] !in tree.dirs
        invariant NoItemDirs(tree) ==> tree == LinkedSome(base, t, done) && ReadableSome(t, done)
      {
        var n :| n in left;
        LinkNext(base, t, done, n);
        if IsJson(n) {
          var linked := LinkItemFile(["items", n]);
          if !linked { return false; }
        }
        left, done := left - {n}, done + {n};
      }
      LinkedAllNames(base, t, all);
      return true;
    }

    method LinkItemFile(p: Path) returns (ok: bool)
      requires base != [] && Exists(tree, p)
      modifies this
      ensures ok <==> p !in old(tree).dirs && old(tree).files[p].Doc? && Shaped(old(tree).files[p].json)
      ensures tree == if ok then old(tree).(files := old(tree).files[p := LinkedFile(base, old(tree), old(tree).files[p])]) else old(tree)
    {
      if p in tree.dirs { return false; }
      var file := tree.files[p];
      if file.Raw? || !Shaped(file.json) { return false; }
      var item, changed := LinkItem(tree, file.json);
      if changed { tree := tree.(files := tree.files[p := Doc(item)]); } else { assert tree.files[p := Doc(item)] == tree.files; }
      return true;
    }

    /** Re-links the assets of one item. */
    method LinkItem(t: Tree, item: Json) returns (after: Json, changed: bool)
      requires base != [] && Shaped(item)
      ensures Doc(after) == LinkedFile(base, t, Doc(item))
      ensures !changed ==> after == item
    {
      var assets := AssetsOf(item);
      ghost var hs := LinkedAll(base, t, Hrefs(item));
      changed := false;
      var k := 0;
      PartlyEnds(item, hs);
      while k < |assets|
        invariant 0 <= k <= |assets| == |hs|
        invariant assets == Partly(item, hs, k)
        invariant !changed ==> assets == AssetsOf(item)
      {
        PartlyStep(item, hs, k);
        var href := HrefOf(assets[k].1);
        if !(href != "" && href[0] == '/') {
          var c := Components(StripDots(href));
          if Walk(t, [], c).Some? {
            assets := assets[k := (assets[k].0, SetHref(assets[k].1, Absolute(base + c)))];
            changed := true;
          }
        }
        k := k + 1;
      }
      after := WithAssets(item, assets);
      if !changed { WithSame(item); }
    }
  }
}
