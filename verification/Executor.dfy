/** prepare_graphs: one process graph, rewritten in place for every tile and copied out each time. */
module Executor {
  import opened Options
  import opened Json
  import opened Tiling
  import opened Graphs

  datatype Result<+T> = Ok(value: T) | ValueError | AttributeError | TypeError | KeyError

  const TILESIZE: nat := 100000

  /** The four numbers of a box, as `box(*bbox)` orders them. */
  function Corners(e: Extent): Option<Rect> {
    if e.Boxed? && e.box.west.Num? && e.box.south.Num? && e.box.east.Num? && e.box.north.Num? then
      Some(BoxBounds(e.box.west.n, e.box.south.n, e.box.east.n, e.box.north.n))
    else None
  }

  /** The dictionary that every iteration shares. */
  class ProcessGraph {
    var nodes: Graph

    constructor (nodes: Graph)
      ensures this.nodes == nodes
    {
      this.nodes := nodes;
    }

    /** derive_sub_graph, in its two scans; false when it raises KeyError. */
    method DeriveSubGraph(tile: Rect) returns (ok: bool)
      modifies this
      ensures ok <==> Derive(old(nodes), tile).Some?
      ensures nodes == if ok then Derive(old(nodes), tile).value else old(nodes)
    {
      var k := 0;
      while k < |nodes|
        invariant 0 <= k <= |nodes| && nodes == old(nodes)
        invariant forall i | 0 <= i < k :: !IsLoad(nodes[i].1)
      {
        var n := nodes[k].1;
        if IsLoad(n) {
          FirstIs(nodes, IsLoad, k);
          if n.arguments.None? {
            return false;
          }
          nodes := Assign(nodes, Place(k, EXTENT), TileBox(tile));
          return true;
        }
        k := k + 1;
      }
      FirstNone(nodes, IsLoad);
      k := 0;
      while k < |nodes|
        invariant 0 <= k <= |nodes| && nodes == old(nodes)
        invariant forall i | 0 <= i < k :: !HoldsDict(nodes[i].1)
      {
        var n := nodes[k].1;
        if n.Node? {
          var args := Args(n);
          if Lookup(args, BBOX).Dict? {
            FirstIs(nodes, HoldsDict, k);
            nodes := Assign(nodes, Place(k, BBOX), TileBox(tile));
            return true;
          }
          if Lookup(args, EXTENT).Dict? {
            FirstIs(nodes, HoldsDict, k);
            nodes := Assign(nodes, Place(k, EXTENT), TileBox(tile));
            return true;
          }
        }
        k := k + 1;
      }
      FirstNone(nodes, HoldsDict);
      return true;
    }
  }

  /** What the shared graph holds after the first `k` cells. */
  ghost predicate Holds(g: Graph, now: Graph, cells: seq<Cell>, k: nat)
    requires k <= |cells|
  {
    if k == 0 then now == g else Derive(g, cells[k - 1].bounds) == Some(now)
  }

  /** Sub-graph `i` is the original graph rewritten for cell `i` alone. */
  ghost predicate OnePerCell(g: Graph, subs: seq<Graph>, cells: seq<Cell>) {
    |subs| <= |cells| && forall i | 0 <= i < |subs| :: Derive(g, cells[i].bounds) == Some(subs[i])
  }

  /** The loop over the cells; false when a rewrite raises. */
  method DeriveAll(pg: ProcessGraph, cells: seq<Cell>) returns (ok: bool, subs: seq<Graph>)
    modifies pg
    ensures ok ==> |subs| == |cells| && OnePerCell(old(pg.nodes), subs, cells) && Holds(old(pg.nodes), pg.nodes, cells, |cells|)
    ensures !ok <==> cells != [] && Unwritable(old(pg.nodes))
  {
    subs := [];
    var k := 0;
    while k < |cells|
      invariant 0 <= k <= |cells|
      invariant |subs| == k && OnePerCell(old(pg.nodes), subs, cells)
      invariant Holds(old(pg.nodes), pg.nodes, cells, k)
      invariant k > 0 ==> !Unwritable(old(pg.nodes))
    {
      if k > 0 { DeriveTwice(old(pg.nodes), cells[k - 1].bounds, cells[k].bounds); }
      ok := pg.DeriveSubGraph(cells[k].bounds);
      if !ok {
        return;
      }
      subs := subs + [pg.nodes];
      k := k + 1;
    }
    ok := true;
  }

  /** The extent of a graph, the box the tiles are laid over, and the tiles. */
  ghost predicate TilesOver(e: Extent, geodesy: Geodesy, cells: seq<Cell>) {
    && e.Boxed? && e.box.west.Num? && e.box.south.Num? && e.box.east.Num? && e.box.north.Num?
    && var w, s, e, n := e.box.west.n, e.box.south.n, e.box.east.n, e.box.north.n;
      exists b, columns, rows :: IsGridOver(b, 100000, geodesy, cells, columns, rows)
        && b.west <= b.east && b.south <= b.north
        && ((b.west == w && b.east == e) || (b.west == e && b.east == w))
        && ((b.south == s && b.north == n) || (b.south == n && b.north == s))
  }

  method PrepareGraphs(pg: ProcessGraph, geodesy: Geodesy) returns (r: Result<seq<Graph>>, ghost cells: seq<Cell>)
    requires forall a, b, c, d :: geodesy.inverse(a, b, c, d) >= 0.0
    modifies pg
    ensures r == ValueError <==> BoundingBox(old(pg.nodes)) == NoExtent
    ensures r == AttributeError <==> BoundingBox(old(pg.nodes)).Unparsed?
    ensures r == TypeError <==>
      && BoundingBox(old(pg.nodes)).Boxed?
      && var b := BoundingBox(old(pg.nodes)).box; !(b.west.Num? && b.south.Num? && b.east.Num? && b.north.Num?)
    ensures r.Ok? || r == KeyError ==>
      && Corners(BoundingBox(old(pg.nodes))).Some? && TilesOver(BoundingBox(old(pg.nodes)), geodesy, cells)
      && var g := Grid(Corners(BoundingBox(old(pg.nodes))).value, TILESIZE, geodesy);
        g.Valid() && IsFullGrid(g, cells)
    ensures r.Ok? ==> |r.value| == |cells| && OnePerCell(old(pg.nodes), r.value, cells) && Holds(old(pg.nodes), pg.nodes, cells, |cells|)
    ensures r == KeyError ==> cells != [] && Unwritable(old(pg.nodes))
  {
    cells := [];
    var extent := BoundingBox(pg.nodes);
    if extent == NoExtent {
      return ValueError, [];
    }
    if extent.Unparsed? {
      return AttributeError, [];
    }
    var corners := Corners(extent);
    if corners.None? {
      return TypeError, [];
    }
    var grid := new StacGrid(corners.value, TILESIZE, geodesy);
    grid.SetGridCells();
    cells := grid.cells;
    var ok, subs := DeriveAll(pg, grid.cells);
    r := if ok then Ok(subs) else KeyError;
  }

  /** Each sub-graph reads back as its own tile. */
  lemma SubGraphReadsItsTile(g: Graph, subs: seq<Graph>, cells: seq<Cell>, i: nat)
    requires BoundingBox(g) != NoExtent && OnePerCell(g, subs, cells) && i < |subs|
    ensures Corners(BoundingBox(subs[i])) == Some(BoxBounds(cells[i].bounds.west, cells[i].bounds.south, cells[i].bounds.east, cells[i].bounds.north))
  {
    ReadAfterWrite(g, cells[i].bounds);
  }

  /** On a straight projection the sub-graphs' own extents lie inside the extent of the graph they
      came from, and no two of them meet. */
  lemma SubGraphsTileTheExtent(
    g: Graph, subs: seq<Graph>, cells: seq<Cell>, geodesy: Geodesy, east: real -> real, south: real -> real, i: nat, k: nat)
    requires Corners(BoundingBox(g)).Some? && OnePerCell(g, subs, cells) && i < k < |subs|
    requires var grid := Grid(Corners(BoundingBox(g)).value, TILESIZE, geodesy);
      grid.Valid() && IsFullGrid(grid, cells) && Straight(grid, east, south)
    ensures Corners(BoundingBox(subs[i])).Some? && Corners(BoundingBox(subs[k])).Some?
    ensures var whole, a, b := Corners(BoundingBox(g)).value, Corners(BoundingBox(subs[i])).value, Corners(BoundingBox(subs[k])).value;
      && whole.west <= a.west <= a.east <= whole.east && whole.south <= a.south <= a.north <= whole.north
      && (a.east < b.west || b.east < a.west || a.north < b.south || b.north < a.south)
  {
    var grid := Grid(Corners(BoundingBox(g)).value, TILESIZE, geodesy);
    SubGraphReadsItsTile(g, subs, cells, i);
    SubGraphReadsItsTile(g, subs, cells, k);
    TilesInsideBox(grid, east, south, cells, i);
    TilesInsideBox(grid, east, south, cells, k);
    TilesApart(grid, east, south, cells, i, k);
  }
}
