/** Reading the spatial extent of a process graph, and rewriting it in place for one tile after
    another. */
module Graphs {
  import opened Options
  import opened Text
  import opened Json
  import opened Tiling

  /** A top-level node: its process id ("" when missing), its arguments when it has any, and the
      rest; a value that is not a dictionary is skipped by reader and writer. */
  datatype Node =
    | Opaque(value: Json)
    | Node(process: string, arguments: Option<Fields<Json>>, rest: Fields<Json>)

  /** Node ids and nodes in dictionary order. */
  type Graph = seq<(string, Node)>

  datatype Box = Box(west: Json, south: Json, east: Json, north: Json)

  /** What the reader finds: nothing, a box, or a load node's extent that is not one. */
  datatype Extent = NoExtent | Boxed(box: Box) | Unparsed(value: Json)

  const EXTENT := "spatial_extent"
  const BBOX := "bbox"

  predicate IsLoad(n: Node) {
    n.Node? && Contains(n.process, "load_")
  }

  /** The arguments of a node, none when it has none. */
  function Args(n: Node): Fields<Json> {
    if n.Node? && n.arguments.Some? then n.arguments.value else []
  }

  /** _bbox_from_dict: a dictionary with all four sides. */
  function BoxOf(v: Json): Option<Box> {
    if v.Dict? && Has(v.fields, "west") && Has(v.fields, "south") && Has(v.fields, "east") && Has(v.fields, "north") then
      Some(Box(Lookup(v.fields, "west"), Lookup(v.fields, "south"), Lookup(v.fields, "east"), Lookup(v.fields, "north")))
    else None
  }

  /** The first argument of a node under one of the two box keys that satisfies `ok`. */
  function BoxKey(n: Node, ok: Json -> bool): Option<string> {
    if ok(Lookup(Args(n), BBOX)) then Some(BBOX)
    else if ok(Lookup(Args(n), EXTENT)) then Some(EXTENT)
    else None
  }

  predicate IsBox(v: Json) { BoxOf(v).Some? }

  predicate IsDict(v: Json) { v.Dict? }

  /** The first node satisfying `ok`, or the length of the graph. */
  function First(g: Graph, ok: Node -> bool): (i: nat)
    ensures i <= |g|
    ensures forall k | 0 <= k < i :: !ok(g[k].1)
    ensures i < |g| ==> ok(g[i].1)
  {
    if g == [] || ok(g[0].1) then 0
    else
      var i := First(g[1..], ok);
      assert forall k | 0 < k < |g| :: g[1..][k - 1] == g[k];
      1 + i
  }

  predicate LoadsExtent(n: Node) { IsLoad(n) && Has(Args(n), EXTENT) }

  predicate HoldsBox(n: Node) { n.Node? && BoxKey(n, IsBox).Some? }

  predicate HoldsDict(n: Node) { n.Node? && BoxKey(n, IsDict).Some? }

  /** A (node, argument) place in a graph. */
  datatype Place = Place(node: nat, key: string)

  /** Where get_pg_bounding_box reads. */
  function ReadPlace(g: Graph): (r: Option<Place>)
    ensures r.Some? ==> r.value.node < |g|
  {
    var load := First(g, LoadsExtent);
    if load < |g| then Some(Place(load, EXTENT))
    else
      var node := First(g, HoldsBox);
      if node < |g| then Some(Place(node, BoxKey(g[node].1, IsBox).value)) else None
  }

  /** Where derive_sub_graph writes. */
  function WritePlace(g: Graph): (r: Option<Place>)
    ensures r.Some? ==> r.value.node < |g|
  {
    var load := First(g, IsLoad);
    if load < |g| then Some(Place(load, EXTENT))
    else
      var node := First(g, HoldsDict);
      if node < |g| then Some(Place(node, BoxKey(g[node].1, IsDict).value)) else None
  }

  function At(g: Graph, p: Place): Json
    requires p.node < |g|
  {
    Lookup(Args(g[p.node].1), p.key)
  }

  function ExtentOf(v: Json): Extent {
    match BoxOf(v) case None => Unparsed(v) case Some(b) => Boxed(b)
  }

  /** get_pg_bounding_box; an extent that is null is none. */
  function BoundingBox(g: Graph): Extent {
    match ReadPlace(g)
    case None => NoExtent
    case Some(p) => if At(g, p) == Null then NoExtent else ExtentOf(At(g, p))
  }

  /** Assignment to one argument of one node. */
  function Assign(g: Graph, p: Place, v: Json): Graph
    requires p.node < |g|
  {
    var n := g[p.node].1;
    if n.Node? && n.arguments.Some? then g[p.node := (g[p.node].0, n.(arguments := Some(Put(n.arguments.value, p.key, v))))] else g
  }

  function TileBox(r: Rect): Json {
    Dict([("west", Num(r.west)), ("east", Num(r.east)), ("south", Num(r.south)), ("north", Num(r.north))])
  }

  /** The writer reaches for the arguments of a load node that has none. */
  predicate Unwritable(g: Graph) {
    var load := First(g, IsLoad);
    load < |g| && g[load].1.arguments.None?
  }

  /** derive_sub_graph; None when it raises. */
  function Derive(g: Graph, tile: Rect): Option<Graph> {
    if Unwritable(g) then None
    else match WritePlace(g) case None => Some(g) case Some(p) => Some(Assign(g, p, TileBox(tile)))
  }

  lemma FirstIs(g: Graph, ok: Node -> bool, i: nat)
    requires i < |g| && ok(g[i].1) && forall k | 0 <= k < i :: !ok(g[k].1)
    ensures First(g, ok) == i
  {
    assert First(g, ok) <= i;
  }

  lemma FirstNone(g: Graph, ok: Node -> bool)
    requires forall k | 0 <= k < |g| :: !ok(g[k].1)
    ensures First(g, ok) == |g|
  {
  }

  lemma Writable(g: Graph, p: Place)
    requires !Unwritable(g) && WritePlace(g) == Some(p)
    ensures g[p.node].1.Node? && g[p.node].1.arguments.Some?
    ensures p.key == BBOX || p.key == EXTENT
  {
    var n := g[p.node].1;
    if !IsLoad(n) { assert HoldsDict(n) && Lookup(Args(n), p.key).Dict?; }
  }

  /** A tile at the written place leaves the place where it was. */
  lemma PlaceStays(g: Graph, tile: Rect, p: Place)
    requires !Unwritable(g) && WritePlace(g) == Some(p)
    ensures var h := Assign(g, p, TileBox(tile));
      !Unwritable(h) && WritePlace(h) == Some(p) && At(h, p) == TileBox(tile)
  {
    Writable(g, p);
    var h := Assign(g, p, TileBox(tile));
    var args := g[p.node].1.arguments.value;
    assert Args(h[p.node].1) == Put(args, p.key, TileBox(tile));
    GetPut(args, p.key, TileBox(tile), BBOX);
    GetPut(args, p.key, TileBox(tile), EXTENT);
    var load := First(g, IsLoad);
    if load < |g| {
      FirstIs(h, IsLoad, load);
    } else {
      FirstNone(h, IsLoad);
      FirstIs(h, HoldsDict, p.node);
    }
  }

  /** The derived graph is the given one everywhere but at the written place. */
  lemma DeriveFrame(g: Graph, tile: Rect, p: Place)
    requires !Unwritable(g) && WritePlace(g) == Some(p)
    ensures Derive(g, tile).Some?
    ensures var h := Derive(g, tile).value;
      && |h| == |g|
      && (forall i | 0 <= i < |g| && i != p.node :: h[i] == g[i])
      && h[p.node].0 == g[p.node].0 && h[p.node].1.Node? && h[p.node].1.process == g[p.node].1.process && h[p.node].1.rest == g[p.node].1.rest
      && At(h, p) == TileBox(tile)
      && forall key | key != p.key :: Get(Args(h[p.node].1), key) == Get(Args(g[p.node].1), key)
  {
    Writable(g, p);
    var args := g[p.node].1.arguments.value;
    forall key ensures Get(Put(args, p.key, TileBox(tile)), key) == if key == p.key then Some(TileBox(tile)) else Get(args, key) {
      GetPut(args, p.key, TileBox(tile), key);
    }
  }

  /** Rewriting for one tile and then another is rewriting for the other. */
  lemma DeriveTwice(g: Graph, a: Rect, b: Rect)
    requires !Unwritable(g)
    ensures Derive(g, a).Some? && Derive(Derive(g, a).value, b) == Derive(g, b)
  {
    if WritePlace(g).Some? {
      var p := WritePlace(g).value;
      Writable(g, p);
      PlaceStays(g, a, p);
      PutPut(g[p.node].1.arguments.value, p.key, TileBox(a), TileBox(b));
      assert Assign(Assign(g, p, TileBox(a)), p, TileBox(b)) == Assign(g, p, TileBox(b));
    }
  }

  lemma TileIsBox(tile: Rect)
    ensures BoxOf(TileBox(tile)) == Some(Box(Num(tile.west), Num(tile.south), Num(tile.east), Num(tile.north)))
  {
    var f := TileBox(tile).fields;
    assert f[1..][0] == ("east", Num(tile.east)) && f[1..][1..][0] == ("south", Num(tile.south));
    assert f[1..][1..][1..][0] == ("north", Num(tile.north));
    assert Get(f, "west") == Some(Num(tile.west));
    assert Get(f, "east") == Some(Num(tile.east));
    assert Get(f, "south") == Get(f[1..], "south") == Get(f[1..][1..], "south") == Some(Num(tile.south));
    assert Get(f, "north") == Get(f[1..], "north") == Get(f[1..][1..], "north") == Get(f[1..][1..][1..], "north") == Some(Num(tile.north));
  }

  /** Read after write: whenever the reader finds an extent and the writer does not raise, the writer
      rewrites some place, and the reader then finds exactly the tile. */
  lemma ReadAfterWrite(g: Graph, tile: Rect)
    requires BoundingBox(g) != NoExtent && !Unwritable(g)
    ensures WritePlace(g).Some?
    ensures BoundingBox(Derive(g, tile).value) == Boxed(Box(Num(tile.west), Num(tile.south), Num(tile.east), Num(tile.north)))
  {
    var r := ReadPlace(g).value;
    assert IsLoad(g[r.node].1) || HoldsDict(g[r.node].1);
    var p := WritePlace(g).value;
    var h := Derive(g, tile).value;
    PlaceStays(g, tile, p);
    DeriveFrame(g, tile, p);
    TileIsBox(tile);
    assert ReadPlace(h) == Some(p) by { ReadsWritten(g, h, p); }
  }

  /** The reader scans to the place that was written: nothing before it is a box of its own. */
  lemma ReadsWritten(g: Graph, h: Graph, p: Place)
    requires !Unwritable(g) && WritePlace(g) == Some(p) && |h| == |g|
    requires forall i | 0 <= i < |g| && i != p.node :: h[i] == g[i]
    requires h[p.node].1.Node? && h[p.node].1.process == g[p.node].1.process && IsBox(At(h, p))
    requires forall key | key != p.key :: Get(Args(h[p.node].1), key) == Get(Args(g[p.node].1), key)
    ensures ReadPlace(h) == Some(p)
  {
    Writable(g, p);
    if First(g, IsLoad) < |g| {
      FirstIs(h, LoadsExtent, p.node);
    } else {
      forall k | 0 <= k < |h| ensures !LoadsExtent(h[k].1) { assert !IsLoad(g[k].1); }
      FirstNone(h, LoadsExtent);
      forall k | 0 <= k < p.node ensures !HoldsBox(h[k].1) { assert !HoldsDict(g[k].1); }
      FirstIs(h, HoldsBox, p.node);
    }
  }

  /** The box that is read is the one that is rewritten exactly when the first load node has an extent
      or, without load nodes, the first dictionary under a box key has all four sides. */
  lemma SamePlaceIff(g: Graph)
    requires BoundingBox(g) != NoExtent
    ensures ReadPlace(g) == WritePlace(g) <==>
      (if First(g, IsLoad) < |g| then Has(Args(g[First(g, IsLoad)].1), EXTENT) else FirstDictIsBox(g))
  {
    if First(g, IsLoad) < |g| { SamePlaceWithLoad(g); } else { SamePlaceWithoutLoad(g); }
  }

  predicate FirstDictIsBox(g: Graph) {
    var dict := First(g, HoldsDict);
    dict < |g| && IsBox(Lookup(Args(g[dict].1), BoxKey(g[dict].1, IsDict).value))
  }

  /** Within one node, the two scans of the box keys agree when the first dictionary is a box. */
  lemma KeysAgreeIff(n: Node)
    requires BoxKey(n, IsDict).Some?
    ensures IsBox(Lookup(Args(n), BoxKey(n, IsDict).value)) <==> BoxKey(n, IsBox) == BoxKey(n, IsDict)
  {
  }

  lemma ExtentBoxed(n: Node)
    requires BoxKey(n, IsBox) == Some(EXTENT)
    ensures Has(Args(n), EXTENT)
  {
    assert IsBox(Lookup(Args(n), EXTENT));
  }

  lemma SamePlaceWithLoad(g: Graph)
    requires ReadPlace(g).Some? && First(g, IsLoad) < |g|
    ensures ReadPlace(g) == WritePlace(g) <==> Has(Args(g[First(g, IsLoad)].1), EXTENT)
  {
    var load, read, node := First(g, IsLoad), First(g, LoadsExtent), First(g, HoldsBox);
    assert WritePlace(g) == Some(Place(load, EXTENT));
    if Has(Args(g[load].1), EXTENT) {
      forall k | 0 <= k < load ensures !LoadsExtent(g[k].1) { assert !IsLoad(g[k].1); }
      FirstIs(g, LoadsExtent, load);
    } else if read < |g| {
      assert ReadPlace(g) == Some(Place(read, EXTENT)) && LoadsExtent(g[read].1);
    } else {
      assert ReadPlace(g) == Some(Place(node, BoxKey(g[node].1, IsBox).value));
      if node == load && BoxKey(g[node].1, IsBox) == Some(EXTENT) { ExtentBoxed(g[node].1); }
    }
  }

  lemma BoxIsDict(n: Node)
    ensures HoldsBox(n) ==> HoldsDict(n)
  {
  }

  lemma ReadsWithoutLoad(g: Graph)
    requires First(g, IsLoad) == |g|
    ensures var node := First(g, HoldsBox);
      ReadPlace(g) == if node < |g| then Some(Place(node, BoxKey(g[node].1, IsBox).value)) else None
  {
    forall k | 0 <= k < |g| ensures !LoadsExtent(g[k].1) { assert !IsLoad(g[k].1); }
    FirstNone(g, LoadsExtent);
  }

  lemma SamePlaceWithoutLoad(g: Graph)
    requires ReadPlace(g).Some? && First(g, IsLoad) == |g|
    ensures ReadPlace(g) == WritePlace(g) <==> FirstDictIsBox(g)
  {
    ReadsWithoutLoad(g);
    var node, dict := First(g, HoldsBox), First(g, HoldsDict);
    BoxIsDict(g[node].1);
    assert dict <= node;
    KeysAgreeIff(g[dict].1);
    if FirstDictIsBox(g) {
      forall k | 0 <= k < dict ensures !HoldsBox(g[k].1) { BoxIsDict(g[k].1); }
      FirstIs(g, HoldsBox, dict);
    }
  }

  // Reader and writer, node by node.

  /** The node's process id has "load_" in it. */
  predicate CallsLoad(n: Node) {
    n.Node? && exists k | 0 <= k <= |n.process| :: OccursAt(n.process, "load_", k)
  }

  /** The value of an argument of a node, None when there is none. */
  function ArgumentOf(n: Node, key: string): Option<Json> {
    if n.Node? && n.arguments.Some? then Get(n.arguments.value, key) else None
  }

  predicate HasSides(v: Json, west: Json, south: Json, east: Json, north: Json) {
    && v.Dict?
    && Get(v.fields, "west") == Some(west) && Get(v.fields, "south") == Some(south)
    && Get(v.fields, "east") == Some(east) && Get(v.fields, "north") == Some(north)
  }

  predicate HasAllSides(v: Option<Json>) {
    v.Some? && v.value.Dict? && Has(v.value.fields, "west") && Has(v.value.fields, "south") && Has(v.value.fields, "east") && Has(v.value.fields, "north")
  }

  predicate IsADict(v: Option<Json>) { v.Some? && v.value.Dict? }

  /** The reader takes the first load node with a spatial_extent, whatever it holds; */
  lemma ReadsLoadExtent(g: Graph, i: nat)
    requires i < |g| && CallsLoad(g[i].1) && ArgumentOf(g[i].1, "spatial_extent").Some?
    requires forall k | 0 <= k < i :: !(CallsLoad(g[k].1) && ArgumentOf(g[k].1, "spatial_extent").Some?)
    ensures var v := ArgumentOf(g[i].1, "spatial_extent").value;
      && (BoundingBox(g) == NoExtent <==> v == Null)
      && (BoundingBox(g) == Unparsed(v) <==> v != Null && !HasAllSides(Some(v)))
      && forall w, s, e, n :: BoundingBox(g) == Boxed(Box(w, s, e, n)) <==> HasSides(v, w, s, e, n)
  {
    FirstIs(g, LoadsExtent, i);
  }

  /** or else the first node with a box under bbox, or under spatial_extent; and nothing without either. */
  lemma ReadsBoxArgument(g: Graph, i: nat, key: string)
    requires forall k | 0 <= k < |g| :: !(CallsLoad(g[k].1) && ArgumentOf(g[k].1, "spatial_extent").Some?)
    requires i < |g| && HasAllSides(ArgumentOf(g[i].1, key))
    requires key == "bbox" || (key == "spatial_extent" && !HasAllSides(ArgumentOf(g[i].1, "bbox")))
    requires forall k | 0 <= k < i :: !HasAllSides(ArgumentOf(g[k].1, "bbox")) && !HasAllSides(ArgumentOf(g[k].1, "spatial_extent"))
    ensures forall w, s, e, n :: BoundingBox(g) == Boxed(Box(w, s, e, n)) <==> HasSides(ArgumentOf(g[i].1, key).value, w, s, e, n)
    ensures BoundingBox(g).Boxed?
  {
    forall k | 0 <= k < |g| ensures !LoadsExtent(g[k].1) { assert IsLoad(g[k].1) <==> CallsLoad(g[k].1); }
    FirstNone(g, LoadsExtent);
    FirstIs(g, HoldsBox, i);
  }

  lemma ReadsNothing(g: Graph)
    requires forall k | 0 <= k < |g| :: !(CallsLoad(g[k].1) && ArgumentOf(g[k].1, "spatial_extent").Some?)
    requires forall k | 0 <= k < |g| :: !HasAllSides(ArgumentOf(g[k].1, "bbox")) && !HasAllSides(ArgumentOf(g[k].1, "spatial_extent"))
    ensures BoundingBox(g) == NoExtent
  {
    forall k | 0 <= k < |g| ensures !LoadsExtent(g[k].1) { assert IsLoad(g[k].1) <==> CallsLoad(g[k].1); }
    FirstNone(g, LoadsExtent);
    FirstNone(g, HoldsBox);
  }

  /** Only argument `key` of node `i` changes, and it holds the tile. */
  ghost predicate TileAt(g: Graph, h: Graph, i: nat, key: string, tile: Rect)
    requires i < |g|
  {
    && |h| == |g| && (forall k | 0 <= k < |g| && k != i :: h[k] == g[k]) && h[i].0 == g[i].0
    && h[i].1.Node? && g[i].1.Node? && h[i].1.process == g[i].1.process && h[i].1.rest == g[i].1.rest
    && (forall other | other != key :: ArgumentOf(h[i].1, other) == ArgumentOf(g[i].1, other))
    && ArgumentOf(h[i].1, key).Some?
    && HasSides(ArgumentOf(h[i].1, key).value, Num(tile.west), Num(tile.south), Num(tile.east), Num(tile.north))
  }

  lemma DerivedAt(g: Graph, tile: Rect, p: Place)
    requires !Unwritable(g) && WritePlace(g) == Some(p)
    ensures Derive(g, tile).Some? && TileAt(g, Derive(g, tile).value, p.node, p.key, tile)
  {
    Writable(g, p);
    DeriveFrame(g, tile, p);
    TileIsBox(tile);
    PlaceStays(g, tile, p);
  }

  /** The writer takes the first load node, and raises when it has no arguments; */
  lemma WritesLoadExtent(g: Graph, tile: Rect, i: nat)
    requires i < |g| && CallsLoad(g[i].1) && forall k | 0 <= k < i :: !CallsLoad(g[k].1)
    ensures Derive(g, tile) == None <==> g[i].1.arguments == None
    ensures Derive(g, tile).Some? ==> TileAt(g, Derive(g, tile).value, i, "spatial_extent", tile)
  {
    FirstIs(g, IsLoad, i);
    if g[i].1.arguments.Some? { DerivedAt(g, tile, Place(i, EXTENT)); }
  }

  /** or else the first node with a dictionary under bbox, or under spatial_extent; */
  lemma WritesDictArgument(g: Graph, tile: Rect, i: nat, key: string)
    requires i < |g| && IsADict(ArgumentOf(g[i].1, key)) && forall k | 0 <= k < |g| :: !CallsLoad(g[k].1)
    requires key == "bbox" || (key == "spatial_extent" && !IsADict(ArgumentOf(g[i].1, "bbox")))
    requires forall k | 0 <= k < i :: !IsADict(ArgumentOf(g[k].1, "bbox")) && !IsADict(ArgumentOf(g[k].1, "spatial_extent"))
    ensures Derive(g, tile).Some? && TileAt(g, Derive(g, tile).value, i, key, tile)
  {
    forall k | 0 <= k < |g| ensures !IsLoad(g[k].1) { assert IsLoad(g[k].1) <==> CallsLoad(g[k].1); }
    FirstNone(g, IsLoad);
    FirstIs(g, HoldsDict, i);
    DerivedAt(g, tile, Place(i, key));
  }

  /** and without either it changes nothing. */
  lemma WritesNothing(g: Graph, tile: Rect)
    requires forall k | 0 <= k < |g| :: !CallsLoad(g[k].1)
    requires forall k | 0 <= k < |g| :: !IsADict(ArgumentOf(g[k].1, "bbox")) && !IsADict(ArgumentOf(g[k].1, "spatial_extent"))
    ensures Derive(g, tile) == Some(g)
  {
    forall k | 0 <= k < |g| ensures !IsLoad(g[k].1) { assert IsLoad(g[k].1) <==> CallsLoad(g[k].1); }
    FirstNone(g, IsLoad);
    FirstNone(g, HoldsDict);
  }
}
