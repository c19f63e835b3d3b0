/** What the restructured STAC directory keeps of the tool's output: every file, at one place, with its
    content, and every asset link. */
module Relocation {
  import opened Options
  import opened Json
  import opened Text
  import opened Paths
  import opened Items
  import opened Stac

  /** Where a file of the tool's output ends up. */
  function Relocate(t: Tree, root: string, job: string, p: Path): Path
    requires p in t.files
  {
    if p == [root] then [CollectionName(job)]
    else if |p| == 1 && Moves(t, job, p[0]) then ["items"] + p
    else p
  }

  function Relocation(t: Tree, root: string, job: string): map<Path, Path> {
    map p | p in t.files :: Relocate(t, root, job, p)
  }

  /** No file is in the way: nothing else is named after the job, and no item of items/ has the name of
      a top-level one. */
  predicate NoClash(t: Tree, root: string, job: string) {
    && (root == CollectionName(job) || [CollectionName(job)] !in t.files)
    && forall p | p in t.files.Keys && |p| == 1 && p[0] != root && Moves(t, job, p[0]) :: ["items"] + p !in t.files
  }

  /** The tree before its links are rewritten. */
  function Placed(t: Tree, root: string, job: string): Tree
    requires [root] in t.files
  {
    Moved(Renamed(t, root, job), job)
  }

  lemma MovesAfterRename(t: Tree, root: string, job: string, n: string)
    requires [root] in t.files
    ensures Moves(Renamed(t, root, job), job, n) <==> n != root && Moves(t, job, n)
  {
  }

  lemma PlacedFiles(t: Tree, root: string, job: string, q: Path)
    requires [root] in t.files && IsJson(root)
    ensures var r := Renamed(t, root, job);
      && (Inside(Moving(r, job, TopNames(r)), q) <==> |q| == 2 && q[0] == "items" && q[1] != root && Moves(t, job, q[1]))
      && (OnTop(Moving(r, job, TopNames(r)), q) <==> |q| == 1 && q[0] != root && Moves(t, job, q[0]))
  {
    var r := Renamed(t, root, job);
    if |q| == 2 && q[0] == "items" {
      MovesAfterRename(t, root, job, q[1]);
      if Moves(r, job, q[1]) { assert [q[1]] in r.files.Keys + r.dirs && [q[1]][0] == q[1]; }
    }
    if |q| == 1 {
      MovesAfterRename(t, root, job, q[0]);
      if Moves(r, job, q[0]) { assert [q[0]] in r.files.Keys + r.dirs && [q[0]][0] == q[0]; }
    }
  }

  /** A file of the tool is at its new place. */
  lemma LandsAt(t: Tree, root: string, job: string, p: Path)
    requires [root] in t.files && IsJson(root) && p in t.files
    ensures Relocate(t, root, job, p) in Placed(t, root, job).files
    ensures NoClash(t, root, job) ==> Placed(t, root, job).files[Relocate(t, root, job, p)] == t.files[p]
  {
    var q := Relocate(t, root, job, p);
    PlacedFiles(t, root, job, q);
    assert |p| == 1 ==> p == [p[0]];
    if NoClash(t, root, job) && q == p && |p| == 2 && p[0] == "items" {
      assert p == ["items"] + [p[1]];
      assert [p[1]] in t.files.Keys && [p[1]][0] != root && Moves(t, job, [p[1]][0]) ==> false;
    }
  }

  /** And nothing else is there. */
  lemma ComesFrom(t: Tree, root: string, job: string, q: Path) returns (p: Path)
    requires [root] in t.files && IsJson(root) && q in Placed(t, root, job).files
    ensures p in t.files && Relocate(t, root, job, p) == q
  {
    PlacedFiles(t, root, job, q);
    p := if q == [CollectionName(job)] then [root]
      else if |q| == 2 && q[0] == "items" && q[1] != root && Moves(t, job, q[1]) then [q[1]]
      else q;
    assert |q| == 2 && q[0] == "items" ==> q == ["items"] + [q[1]];
  }

  lemma RelocationRange(base: Path, t: Tree, root: string, job: string)
    requires [root] in t.files && IsJson(root)
    ensures Restructured(base, t, root, job).files.Keys == Relocation(t, root, job).Values
  {
    var placed, relocation := Placed(t, root, job), Relocation(t, root, job);
    assert Restructured(base, t, root, job).files.Keys == placed.files.Keys;
    forall p | p in t.files ensures relocation[p] in placed.files { LandsAt(t, root, job, p); }
    forall q | q in placed.files ensures q in relocation.Values {
      var p := ComesFrom(t, root, job, q);
      assert relocation[p] == q;
    }
  }

  /** A top-level *.json file, other than one named after the job, whose document has the type Feature. */
  predicate IsTopItem(p: Path, f: File, job: string) {
    && |p| == 1 && |p[0]| > 5 && p[0][|p[0]| - 5..] == ".json" && p[0] != job + ".json"
    && f.Doc? && f.json.Dict? && Get(f.json.fields, "type") == Some(Str("Feature"))
  }

  /** A *.json file the tool itself put in items/. */
  predicate IsPlacedItem(p: Path) {
    |p| == 2 && p[0] == "items" && |p[1]| > 5 && p[1][|p[1]| - 5..] == ".json"
  }

  /** A file but the root leaves the top for items/ exactly when it is such an item; every other keeps its path,
      and its content unless it is an item of items/ or has the name of the job. The root has the name of the
      job. */
  lemma ItemsMoveIff(base: Path, t: Tree, root: string, job: string, p: Path)
    requires [root] in t.files && |root| > 5 && root[|root| - 5..] == ".json" && p in t.files
    ensures var out := Restructured(base, t, root, job).files;
      && [job + ".json"] in out && out[[job + ".json"]] == t.files[[root]]
      && (p != [root] ==> (p in out <==> !IsTopItem(p, t.files[p], job)))
      && (p != [root] && IsTopItem(p, t.files[p], job) ==> ["items", p[0]] in out)
      && (p != [root] && |p| == 1 && !IsTopItem(p, t.files[p], job) && ["items", p[0]] !in t.files ==> ["items", p[0]] !in out)
      && (p != [root] && p != [job + ".json"] && !IsTopItem(p, t.files[p], job) && !(|p| == 2 && p[0] == "items") ==> out[p] == t.files[p])
      && (|p| == 2 && p[0] == "items" && !IsPlacedItem(p) ==> out[p] == t.files[p])
  {
    var q := if |p| == 1 then ["items", p[0]] else p;
    var name := [job + ".json"];
    PlacedFiles(t, root, job, p);
    PlacedFiles(t, root, job, q);
    PlacedFiles(t, root, job, name);
    assert |p| == 1 ==> p == [p[0]];
  }

  /** Two files meet. */
  ghost predicate Meet(m: map<Path, Path>, p: Path, q: Path) {
    p in m && q in m && p != q && m[p] == m[q]
  }

  /** A map has as many values as keys exactly when no two keys meet. */
  lemma {:induction false} ManyValuesIff(m: map<Path, Path>)
    ensures |m.Values| <= |m|
    ensures |m.Values| == |m| <==> forall p, q :: !Meet(m, p, q)
    decreases |m|
  {
    if |m| == 0 {
      assert m.Values == {};
    } else {
      var p :| p in m;
      var rest := m - {p};
      ManyValuesIff(rest);
      assert forall q | q in rest :: q in m && rest[q] == m[q];
      forall v ensures v in m.Values <==> v in rest.Values + {m[p]} {
        if v in m.Values {
          var q :| q in m && m[q] == v;
          assert q == p || (q in rest && rest[q] == v);
        }
      }
      assert m.Values == rest.Values + {m[p]};
      if m[p] in rest.Values {
        var q :| q in rest && rest[q] == m[p];
        assert Meet(m, p, q);
      } else {
        assert forall a | a in rest :: rest[a] in rest.Values && rest[a] != m[p];
        forall a, b ensures Meet(m, a, b) <==> Meet(rest, a, b) { }
      }
    }
  }

  lemma MeetIff(t: Tree, root: string, job: string)
    requires [root] in t.files && IsJson(root)
    ensures NoClash(t, root, job) <==> forall p, q :: !Meet(Relocation(t, root, job), p, q)
  {
    var m := Relocation(t, root, job);
    if NoClash(t, root, job) {
      forall p, q | p in m && q in m && m[p] == m[q] ensures p == q { OnePlace(t, root, job, p, q); }
    } else if root != CollectionName(job) && [CollectionName(job)] in t.files {
      assert Meet(m, [root], [CollectionName(job)]);
    } else {
      var p :| p in t.files.Keys && |p| == 1 && p[0] != root && Moves(t, job, p[0]) && ["items"] + p in t.files;
      assert Meet(m, p, ["items"] + p);
    }
  }

  lemma OnePlace(t: Tree, root: string, job: string, p: Path, q: Path)
    requires [root] in t.files && NoClash(t, root, job)
    requires p in t.files && q in t.files && Relocate(t, root, job, p) == Relocate(t, root, job, q)
    ensures p == q
  {
    var there := Relocate(t, root, job, p);
    assert (["items"] + p)[1..] == p && (["items"] + q)[1..] == q;
    if |there| == 2 && there[0] == "items" { assert there == ["items"] + [there[1]]; }
  }

  /** The output keeps all the tool's files exactly when none is in the way. */
  lemma NoFileLostIff(base: Path, t: Tree, root: string, job: string)
    requires [root] in t.files && IsJson(root)
    ensures |Restructured(base, t, root, job).files| == |t.files| <==> NoClash(t, root, job)
  {
    var m := Relocation(t, root, job);
    RelocationRange(base, t, root, job);
    ManyValuesIff(m);
    MeetIff(t, root, job);
    assert m.Keys == t.files.Keys;
    assert |m| == |m.Keys| && |t.files| == |t.files.Keys|;
    assert |Restructured(base, t, root, job).files| == |Restructured(base, t, root, job).files.Keys|;
  }

  /** Every file lands at its place with its content, item files with their links rewritten. */
  lemma ContentKept(base: Path, t: Tree, root: string, job: string, p: Path)
    requires [root] in t.files && IsJson(root) && NoClash(t, root, job) && p in t.files
    ensures var after, q := Restructured(base, t, root, job), Relocate(t, root, job, p);
      && q in after.files
      && after.files[q] == if InItems(q) then LinkedFile(base, Placed(t, root, job), t.files[p]) else t.files[p]
  {
    var placed, q := Placed(t, root, job), Relocate(t, root, job, p);
    LandsAt(t, root, job, p);
    if InItems(q) { assert q in placed.files.Keys + placed.dirs && q[1] in ItemNames(placed); }
  }

  // Links.

  /** The string is an absolute path to `p`. */
  predicate Denotes(h: string, p: Path) {
    h != "" && h[0] == '/' && Components(h) == p
  }

  lemma {:induction false} AboveIsDir(t: Tree, p: Path, i: nat)
    requires IsTree(t) && p in t.files.Keys + t.dirs && i < |p|
    ensures p[..i] in t.dirs
    decreases |p|
  {
    var up := p[..|p| - 1];
    assert up in t.dirs;
    if i < |up| {
      AboveIsDir(t, up, i);
      assert up[..i] == p[..i];
    } else {
      assert p[..i] == up;
    }
  }

  lemma {:induction false} WalkDown(t: Tree, p: Path, i: nat)
    requires p in t.files && ".." !in p && i <= |p| && forall k | 0 <= k < |p| :: p[..k] in t.dirs
    ensures Walk(t, p[..i], p[i..]) == Some(p)
    decreases |p| - i
  {
    if i < |p| {
      assert p[i] in p && p[i..][0] == p[i] && p[i..][1..] == p[i + 1..] && p[..i] + [p[i]] == p[..i + 1];
      WalkDown(t, p, i + 1);
    } else {
      assert p[..i] == p && p[i..] == [];
    }
  }

  /** Parent directories are named in front only. */
  predicate UpsInFront(comps: Path) {
    forall i, k | 0 <= k < i < |comps| && comps[i] == ".." :: comps[k] == ".."
  }

  /** The relative href `h` of item `p` names `c`: followed from the directory of the item. */
  predicate Naming(t: Tree, p: Path, h: string, c: Path)
    requires p != []
  {
    (h == "" || h[0] != '/') && UpsInFront(Components(h)) && Walk(t, p[..|p| - 1], Components(h)) == Some(c)
  }

  /** It goes by the top directory. */
  predicate FromTop(p: Path, h: string, c: Path) {
    Components(h) == if |p| == 1 then c else [".."] + c
  }

  lemma {:induction false} WalkPlain(t: Tree, at: Path, comps: Path)
    requires ".." !in comps && Walk(t, at, comps).Some?
    ensures Walk(t, at, comps) == Some(at + comps)
    decreases |comps|
  {
    if comps == [] {
      assert at + comps == at;
    } else {
      assert comps[0] in comps;
      WalkPlain(t, at + [comps[0]], comps[1..]);
      assert at + [comps[0]] + comps[1..] == at + comps;
    }
  }

  lemma FrontHasNoUps(t: Tree, at: Path, comps: Path)
    requires UpsInFront(comps) && (comps != [] && comps[0] == ".." ==> at == []) && Walk(t, at, comps).Some?
    ensures ".." !in comps
  {
    assert forall i | 0 < i < |comps| && comps[i] == ".." :: comps[0] == "..";
  }

  lemma TopHasNoUps(t: Tree, rest: Path)
    requires (forall i, k | 0 <= k < i < |rest| && rest[i] == ".." :: rest[k] == "..") && Walk(t, [], rest).Some?
    ensures ".." !in rest
  {
    FrontHasNoUps(t, [], rest);
  }

  /** What a relative href of an item at the top or in items/ names is spelled from the top, or from
      items/. */
  lemma NamingSpells(t: Tree, p: Path, h: string, c: Path)
    requires (|p| == 1 || InItems(p)) && Naming(t, p, h, c)
    ensures FromTop(p, h, c) || (InItems(p) && c == ["items"] + Components(h))
  {
    var comps, dir := Components(h), p[..|p| - 1];
    assert dir == if |p| == 1 then [] else ["items"];
    if comps != [] && comps[0] == ".." && |p| == 2 {
      var rest := comps[1..];
      assert dir[..|dir| - 1] == [] && comps == [".."] + rest;
      assert forall i | 0 <= i < |rest| :: rest[i] == comps[i + 1];
      TopHasNoUps(t, rest);
      WalkPlain(t, [], rest);
      assert [] + rest == rest;
    } else {
      FrontHasNoUps(t, dir, comps);
      WalkPlain(t, dir, comps);
      assert [] + comps == comps;
    }
  }

  /** What is left of an href when its leading dots and slashes are gone is what it named exactly when
      it goes by the top directory to a name that does not start with a dot. */
  lemma StrippedIsNamedIff(p: Path, h: string, c: Path)
    requires FromTop(p, h, c) || (InItems(p) && c == ["items"] + Components(h))
    requires |p| == 1 || InItems(p)
    ensures Components(StripDots(h)) == c <==> FromTop(p, h, c) && !DotFirst(c)
  {
    if FromTop(p, h, c) {
      if |p| == 1 { StripKeepsIff(h); } else { StripClimbIff(h, c); }
    } else {
      StrippedIsLighter(h);
      WeightOf(["items"], Components(h));
    }
  }

  lemma LinkedIs(base: Path, t: Tree, h: string, c: Path)
    requires base != [] && AreNames(base) && (h == "" || h[0] != '/') && Walk(t, [], c) == Some(c)
    ensures Denotes(Linked(base, t, h), base + c) <==> Components(StripDots(h)) == c
    ensures Components(StripDots(h)) == c ==> Linked(base, t, h) == Absolute(base + c)
  {
    var stripped := Components(StripDots(h));
    ComponentsAreNames(StripDots(h));
    ComponentsOfAbsolute(base + stripped);
    assert (base + stripped)[|base|..] == stripped && (base + c)[|base|..] == c;
  }

  /** A file that does not move can still be walked to. */
  lemma WalkPlaced(t: Tree, root: string, job: string, c: Path)
    requires IsTree(t) && [root] in t.files && IsJson(root) && c in t.files && Relocate(t, root, job, c) == c
    ensures Walk(Placed(t, root, job), [], c) == Some(c)
  {
    var placed := Placed(t, root, job);
    LandsAt(t, root, job, c);
    forall i | 0 <= i < |c| ensures c[..i] in placed.dirs { AboveIsDir(t, c, i); }
    WalkDown(placed, c, 0);
    assert c[..0] == [] && c[0..] == c;
  }

  lemma ItemIsReadable(t: Tree, root: string, job: string, p: Path)
    requires [root] in t.files && IsJson(root) && Works(t, root, job) && NoClash(t, root, job)
    requires p in t.files && InItems(Relocate(t, root, job, p))
    ensures t.files[p].Doc? && Shaped(t.files[p].json)
  {
    var q := Relocate(t, root, job, p);
    LandsAt(t, root, job, p);
    assert q == ["items", q[1]];
  }

  /** The links of an item of the output. */
  lemma ItemLinks(base: Path, t: Tree, root: string, job: string, p: Path)
    requires [root] in t.files && IsJson(root) && Works(t, root, job) && NoClash(t, root, job)
    requires p in t.files && InItems(Relocate(t, root, job, p))
    ensures var after, q := Restructured(base, t, root, job), Relocate(t, root, job, p);
      && t.files[p].Doc? && Shaped(t.files[p].json)
      && q in after.files && after.files[q].Doc? && Shaped(after.files[q].json)
      && Hrefs(after.files[q].json) == LinkedAll(base, Placed(t, root, job), Hrefs(t.files[p].json))
  {
    ItemIsReadable(t, root, job, p);
    ContentKept(base, t, root, job, p);
    SetHrefsReads(t.files[p].json, LinkedAll(base, Placed(t, root, job), Hrefs(t.files[p].json)));
  }

  lemma ItemPlaces(t: Tree, root: string, job: string, p: Path)
    requires p in t.files && InItems(Relocate(t, root, job, p))
    ensures |p| == 1 || InItems(p)
  {
  }

  lemma PlacedLinkFollowsIff(base: Path, t: Tree, root: string, job: string, p: Path, k: nat, c: Path)
    requires base != [] && AreNames(base) && IsTree(t) && [root] in t.files && IsJson(root)
    requires Works(t, root, job) && NoClash(t, root, job)
    requires p in t.files && InItems(Relocate(t, root, job, p)) && t.files[p].Doc? && k < |Hrefs(t.files[p].json)|
    requires c in t.files && Relocate(t, root, job, c) == c
    requires p != [] && Naming(t, p, Hrefs(t.files[p].json)[k], c)
    ensures var after, q, h := Restructured(base, t, root, job), Relocate(t, root, job, p), Hrefs(t.files[p].json)[k];
      && q in after.files && after.files[q].Doc? && |Hrefs(after.files[q].json)| == |Hrefs(t.files[p].json)|
      && (Denotes(Hrefs(after.files[q].json)[k], base + c) <==> FromTop(p, h, c) && !DotFirst(c))
      && (FromTop(p, h, c) && !DotFirst(c) ==> Hrefs(after.files[q].json)[k] == Absolute(base + c))
      && (|p| == 1 ==> FromTop(p, h, c))
    ensures c in Restructured(base, t, root, job).files
    ensures !InItems(c) ==> Restructured(base, t, root, job).files[c] == t.files[c]
  {
    var h := Hrefs(t.files[p].json)[k];
    ItemPlaces(t, root, job, p);
    NamingSpells(t, p, h, c);
    StrippedIsNamedIff(p, h, c);
    ContentKept(base, t, root, job, c);
    ItemLinks(base, t, root, job, p);
    WalkPlaced(t, root, job, c);
    LinkedIs(base, Placed(t, root, job), h, c);
  }

  lemma PlacesAre(t: Tree, root: string, job: string, p: Path, c: Path)
    requires p in t.files && (IsPlacedItem(p) || (p != [root] && IsTopItem(p, t.files[p], job)))
    requires c in t.files && (root == job + ".json" || c != [root]) && !IsTopItem(c, t.files[c], job)
    ensures var q := if |p| == 1 then ["items", p[0]] else p; Relocate(t, root, job, p) == q && InItems(q)
    ensures Relocate(t, root, job, c) == c
    ensures InItems(c) <==> IsPlacedItem(c)
  {
    assert |p| == 1 ==> ["items"] + p == ["items", p[0]] && p == [p[0]];
    assert |c| == 1 ==> c == [c[0]];
  }

  /** A relative href of an item, that named a file of the tool's output which does not move, becomes an
      absolute path to that file exactly when it went by the top directory to a name that does not start
      with a dot; and the file there has the content it had. For an item at the top every such href goes
      by the top directory; for one that was in items/ already, only those that start with `..`. */
  lemma LinkFollowsFileIff(base: Path, t: Tree, root: string, job: string, p: Path, k: nat, c: Path)
    requires base != [] && AreNames(base) && IsTree(t) && [root] in t.files && IsJson(root)
    requires Works(t, root, job) && NoClash(t, root, job)
    requires p in t.files && (IsPlacedItem(p) || (p != [root] && IsTopItem(p, t.files[p], job)))
    requires t.files[p].Doc? && k < |Hrefs(t.files[p].json)|
    requires c in t.files && (root == job + ".json" || c != [root]) && !IsTopItem(c, t.files[c], job)
    requires Naming(t, p, Hrefs(t.files[p].json)[k], c)
    ensures var after, q, h := Restructured(base, t, root, job), if |p| == 1 then ["items", p[0]] else p, Hrefs(t.files[p].json)[k];
      && q in after.files && after.files[q].Doc? && |Hrefs(after.files[q].json)| == |Hrefs(t.files[p].json)|
      && (Denotes(Hrefs(after.files[q].json)[k], base + c) <==> FromTop(p, h, c) && !DotFirst(c))
      && (FromTop(p, h, c) && !DotFirst(c) ==> Hrefs(after.files[q].json)[k] == Absolute(base + c))
      && (|p| == 1 ==> FromTop(p, h, c))
    ensures c in Restructured(base, t, root, job).files
    ensures !IsPlacedItem(c) ==> Restructured(base, t, root, job).files[c] == t.files[c]
  {
    PlacesAre(t, root, job, p, c);
    PlacedLinkFollowsIff(base, t, root, job, p, k, c);
  }

  lemma {:induction false} WalkGrows(t: Tree, u: Tree, at: Path, comps: Path)
    requires t.dirs <= u.dirs && Walk(t, at, comps).Some? && Exists(u, Walk(t, at, comps).value)
    ensures Walk(u, at, comps) == Walk(t, at, comps)
    decreases |comps|
  {
    if comps != [] {
      if comps[0] != ".." { WalkGrows(t, u, at + [comps[0]], comps[1..]); } else { WalkGrows(t, u, at[..|at| - 1], comps[1..]); }
    }
  }

  lemma ClimbWalks(t: Tree, dir: string, top: Path)
    ensures Walk(t, [dir], [".."] + top).Some? ==> Walk(t, [dir], [".."] + top) == Walk(t, [], top)
  {
    assert ([".."] + top)[1..] == top && [dir][..0] == [];
  }

  /** An href with parent directories further on is followed too: if it goes by the top directory, and
      from there to a name that does not start with a dot, it becomes an absolute path that leads to the
      file it named. */
  lemma LinkLeadsToFile(base: Path, t: Tree, root: string, job: string, p: Path, h: string, top: Path, c: Path)
    requires IsTree(t) && [root] in t.files && IsJson(root) && (|p| == 1 || InItems(p))
    requires (h == "" || h[0] != '/') && Components(h) == (if |p| == 1 then top else [".."] + top) && !DotFirst(top)
    requires c in t.files && Relocate(t, root, job, c) == c && Walk(t, p[..|p| - 1], Components(h)) == Some(c)
    ensures Linked(base, Placed(t, root, job), h) == Absolute(base + top)
    ensures Walk(Placed(t, root, job), [], top) == Some(c)
  {
    if |p| == 1 {
      assert p[..0] == [];
      StripKeepsIff(h);
    } else {
      assert p[..1] == ["items"];
      ClimbWalks(t, "items", top);
      StripClimbIff(h, top);
    }
    LandsAt(t, root, job, c);
    WalkGrows(t, Placed(t, root, job), [], top);
  }

  /** Followed in the output, the href leads to `c`. */
  predicate LeadsTo(base: Path, t: Tree, h: string, c: Path) {
    && h != "" && h[0] == '/'
    && var comps := Components(h); base <= comps && Walk(t, [], comps[|base|..]) == Some(c)
  }

  /** A relative link of the output leads to a file exactly when what is left of it without its leading
      dots and slashes does. */
  lemma LinkedLeadsIff(base: Path, t: Tree, h: string, c: Path)
    requires base != [] && AreNames(base) && (h == "" || h[0] != '/')
    ensures LeadsTo(base, t, Linked(base, t, h), c) <==> Walk(t, [], Components(StripDots(h))) == Some(c)
  {
    var stripped := Components(StripDots(h));
    ComponentsAreNames(StripDots(h));
    ComponentsOfAbsolute(base + stripped);
    assert (base + stripped)[|base|..] == stripped;
  }

  /** The tool's output with the directory items/. */
  function WithItems(t: Tree): Tree {
    t.(dirs := t.dirs + {["items"]})
  }

  /** An unmoved file is led to after the move exactly when it was before. */
  lemma WalkPlacedIff(t: Tree, root: string, job: string, comps: Path, c: Path)
    requires [root] in t.files && IsJson(root) && c in t.files && Relocate(t, root, job, c) == c
    ensures Walk(Placed(t, root, job), [], comps) == Some(c) <==> Walk(WithItems(t), [], comps) == Some(c)
  {
    var placed := Placed(t, root, job);
    LandsAt(t, root, job, c);
    if Walk(placed, [], comps) == Some(c) { WalkGrows(placed, WithItems(t), [], comps); }
    if Walk(WithItems(t), [], comps) == Some(c) { WalkGrows(WithItems(t), placed, [], comps); }
  }

  lemma {:induction false} WalkBelow(t: Tree, u: Tree, d: string, at: Path, comps: Path)
    requires Walk(t, [d] + at, comps).Some? && Walk(u, at, comps).Some?
    ensures Walk(t, [d] + at, comps).value == [d] + Walk(u, at, comps).value
    decreases |comps|
  {
    if comps != [] {
      if comps[0] == ".." {
        assert ([d] + at)[..|at|] == [d] + at[..|at| - 1];
        WalkBelow(t, u, d, at[..|at| - 1], comps[1..]);
      } else {
        assert [d] + at + [comps[0]] == [d] + (at + [comps[0]]);
        WalkBelow(t, u, d, at + [comps[0]], comps[1..]);
      }
    }
  }

  /** What an href names after a leading parent step, if it has one. */
  function AfterClimb(comps: Path): Path {
    if comps != [] && comps[0] == ".." then comps[1..] else comps
  }

  lemma ClimbFirst(comps: Path)
    ensures comps != [] && comps[0] == ".." ==> comps == [".."] + AfterClimb(comps)
  {
  }

  /** Without a dot in front an href leads to what it led to exactly when it goes by the top directory. */
  lemma PlainLeadsIff(t: Tree, p: Path, h: string, c: Path)
    requires |p| == 1 || InItems(p)
    requires Walk(t, p[..|p| - 1], Components(h)) == Some(c) && c in t.files && !DotFirst(AfterClimb(Components(h)))
    ensures Walk(WithItems(t), [], Components(StripDots(h))) == Some(c)
      <==> |p| == 1 || (Components(h) != [] && Components(h)[0] == "..")
  {
    var comps, top := Components(h), AfterClimb(Components(h));
    assert p[..|p| - 1] == if |p| == 1 then [] else ["items"];
    ClimbFirst(comps);
    if comps != [] && comps[0] == ".." {
      StripClimbIff(h, top);
      ClimbWalks(t, "items", top);
      WalkGrows(t, WithItems(t), [], top);
    } else {
      StripKeepsIff(h);
      if |p| == 1 {
        WalkGrows(t, WithItems(t), [], comps);
      } else if Walk(WithItems(t), [], comps) == Some(c) {
        assert ["items"] + [] == ["items"];
        WalkBelow(t, WithItems(t), "items", [], comps);
      }
    }
  }

  /** A relative href of an item, with parent steps anywhere, that led to a file of the tool's output
      which does not move, leads to it in the output exactly when what is left of it without its leading
      dots and slashes leads there from the top. When no dot is in front of the first name that means
      exactly that it goes by the top directory: always for an item at the top, for one that was in
      items/ already when it starts with a parent step. */
  lemma LinkLeadsIff(base: Path, t: Tree, root: string, job: string, p: Path, h: string, c: Path)
    requires base != [] && AreNames(base) && [root] in t.files && IsJson(root) && (|p| == 1 || InItems(p))
    requires (h == "" || h[0] != '/') && Walk(t, p[..|p| - 1], Components(h)) == Some(c)
    requires c in t.files && Relocate(t, root, job, c) == c
    ensures var placed := Placed(t, root, job);
      LeadsTo(base, placed, Linked(base, placed, h), c) <==> Walk(WithItems(t), [], Components(StripDots(h))) == Some(c)
    ensures !DotFirst(AfterClimb(Components(h))) ==>
      var placed := Placed(t, root, job);
      (LeadsTo(base, placed, Linked(base, placed, h), c) <==> |p| == 1 || (Components(h) != [] && Components(h)[0] == ".."))
  {
    LinkedLeadsIff(base, Placed(t, root, job), h, c);
    WalkPlacedIff(t, root, job, Components(StripDots(h)), c);
    if !DotFirst(AfterClimb(Components(h))) { PlainLeadsIff(t, p, h, c); }
  }

  /** Links that come to name another file: `./name` of an item in items/ names items/name, and becomes
      the path of the file of that name at the top. */
  lemma SiblingLinkGoesAstray(base: Path, t: Tree, p: Path, name: string)
    requires InItems(p) && IsName(name) && name[0] != '.' && [] in t.dirs && ["items"] in t.dirs
    requires ["items", name] in t.files && [name] in t.files
    ensures var h := ['.'] + (['/'] + name);
      Naming(t, p, h, ["items", name]) && Linked(base, t, h) == Absolute(base + [name])
  {
    var h := ['.'] + (['/'] + name);
    DotSegmentFirst(['/'] + name);
    SlashFirst(name);
    SplitOne(name, '/');
    KeepNames([name]);
    assert Components(h) == [name] && h[1..] == ['/'] + name && h[1..][1..] == name;
    assert StripDots(h) == StripDots(h[1..]) == StripDots(name) == name;
    assert p[..1] == ["items"] && [name][1..] == [] && ["items"] + [name] == ["items", name] && [] + [name] == [name];
    assert Walk(t, ["items", name], []) == Some(["items", name]) && Walk(t, [name], []) == Some([name]);
  }

  lemma HiddenStripped(dir: string, file: string)
    requires IsName(dir) && dir[0] != '.' && IsName(file)
    ensures Components(StripDots(['.'] + (dir + (['/'] + file)))) == [dir, file]
  {
    var rest := dir + (['/'] + file);
    assert (['.'] + rest)[1..] == rest && rest[0] == dir[0];
    assert StripDots(rest) == rest;
    SplitNext(dir, '/', file);
    SplitOne(file, '/');
    assert [dir] + [file] == [dir, file];
    KeepNames([dir, file]);
  }

  lemma WalkTwo(t: Tree, a: string, b: string)
    requires !Exists(t, [a, b]) && a != ".." && b != ".."
    ensures Walk(t, [], [a, b]) == None
  {
    assert [a, b][1..] == [b] && [b][1..] == [] && [] + [a] == [a] && [a] + [b] == [a, b];
    assert Walk(t, [a, b], []) == None;
    assert Walk(t, [a], [b]) == None;
  }

  /** Links that are lost: `.dir/file` is looked for as `dir/file`. */
  lemma HiddenLinkIsLost(base: Path, t: Tree, dir: string, file: string)
    requires IsName(dir) && dir[0] != '.' && IsName(file) && file != ".." && !Exists(t, [dir, file])
    ensures var h := ['.'] + (dir + (['/'] + file)); Linked(base, t, h) == h
  {
    HiddenStripped(dir, file);
    WalkTwo(t, dir, file);
  }

  lemma LinkedAgain(base: Path, t: Tree, u: Tree, h: string)
    requires base != [] && Walk(t, [], Components(StripDots(h))) == Walk(u, [], Components(StripDots(h)))
    ensures Linked(base, u, Linked(base, t, h)) == Linked(base, t, h)
  {
  }

  /** A second re-linking changes nothing. */
  lemma RelinkingIsIdempotent(base: Path, t: Tree)
    requires base != [] && Readable(t)
    ensures Relinked(base, Relinked(base, t)) == Relinked(base, t)
  {
    var once := Relinked(base, t);
    forall p | p in t.files && InItems(p) ensures LinkedFile(base, once, once.files[p]) == once.files[p] {
      assert p == ["items", p[1]];
      assert p in t.files.Keys + t.dirs && p[1] in ItemNames(t);
      var item := t.files[p].json;
      var hs := LinkedAll(base, t, Hrefs(item));
      SetHrefsReads(item, hs);
      forall i | 0 <= i < |hs| ensures Linked(base, once, hs[i]) == hs[i] {
        WalkSame(t, once, [], Components(StripDots(Hrefs(item)[i])));
        LinkedAgain(base, t, once, Hrefs(item)[i]);
      }
      assert LinkedAll(base, once, hs) == hs;
      SetSame(SetHrefs(item, hs));
    }
    assert Relinked(base, once).files == once.files;
  }
}
