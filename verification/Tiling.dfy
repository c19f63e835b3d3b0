/** The spatial grid: an extent is cut into tiles of `tilesize` metres, all but a ragged last one
    a metre short of the next. Lengths are reals, tile indices integers. */
module Tiling {
  import opened Sums

  datatype Span = Span(lo: real, hi: real) {
    predicate Has(x: real) { lo <= x <= hi }
    function Length(): real { hi - lo }
  }

  datatype Rect = Rect(west: real, south: real, east: real, north: real)

  datatype Cell = Cell(lon: Span, lat: Span, bounds: Rect)

  function Ceil(x: real): int {
    if x.Floor as real == x then x.Floor else x.Floor + 1
  }

  function Tiles(d: real, size: nat): int
    requires size >= 1
  {
    Ceil(d / size as real)
  }

  /** Where tile `k` starts. */
  function Mark(k: int, size: nat): real { (k * size) as real }

  /** Tile `k` of an extent of length `d`. */
  function SpanOf(d: real, size: nat, k: int): Span {
    if Mark(k + 1, size) > d then Span(Mark(k, size), d) else Span(Mark(k, size), Mark(k + 1, size) - 1.0)
  }

  lemma MarksAscend(k: int, m: int, size: nat)
    requires k < m
    ensures Mark(k + 1, size) == Mark(k, size) + size as real <= Mark(m, size)
  {
    assert (k + 1) * size == k * size + size;
    Multiples(k + 1, m, size);
  }

  lemma MarkIsProduct(k: int, size: nat)
    ensures Mark(k, size) == k as real * size as real
  {
  }

  lemma DivideMultiply(x: real, f: real)
    requires f > 0.0 && x >= 0.0
    ensures x / f >= 0.0 && (x / f) * f == x
  {
  }

  lemma ScaleStrict(x: real, y: real, f: real)
    requires f > 0.0
    ensures x < y <==> x * f < y * f
  {
  }

  lemma BelowMark(q: real, k: int, size: nat)
    requires size >= 1
    ensures q < k as real <==> q * size as real < Mark(k, size)
    ensures k as real < q <==> Mark(k, size) < q * size as real
  {
    MarkIsProduct(k, size);
    ScaleStrict(q, k as real, size as real);
    ScaleStrict(k as real, q, size as real);
  }

  /** n tiles reach the end of the extent and n - 1 do not. */
  lemma TilesBracket(d: real, size: nat)
    requires size >= 1 && d >= 0.0
    ensures Tiles(d, size) >= 0 && d <= Mark(Tiles(d, size), size)
    ensures Tiles(d, size) > 0 ==> Mark(Tiles(d, size) - 1, size) < d
  {
    var n, f := Tiles(d, size), size as real;
    var q := d / f;
    DivideMultiply(d, f);
    BelowMark(q, n, size);
    BelowMark(q, n - 1, size);
  }

  /** Only the last tile is ragged. */
  lemma RaggedIsLast(d: real, size: nat, k: int)
    requires size >= 1 && d >= 0.0 && 0 <= k < Tiles(d, size)
    ensures 0.0 <= Mark(k, size) < d
    ensures Mark(k + 1, size) == Mark(k, size) + size as real
    ensures Mark(k + 1, size) > d ==> k == Tiles(d, size) - 1
  {
    TilesBracket(d, size);
    var n := Tiles(d, size);
    MarksAscend(k, k + 1, size);
    if 0 < k { MarksAscend(0, k, size); }
    if k < n - 1 { MarksAscend(k, n - 1, size); }
  }

  /** Tiles are well-formed, lie in the extent, and follow each other with a gap. */
  lemma SpansInOrder(d: real, size: nat, k: int, m: int)
    requires size >= 1 && d >= 0.0 && 0 <= k <= m < Tiles(d, size)
    ensures 0.0 <= SpanOf(d, size, k).lo <= SpanOf(d, size, k).hi <= d
    ensures k < m ==> SpanOf(d, size, k).hi < SpanOf(d, size, m).lo
  {
    RaggedIsLast(d, size, k);
    RaggedIsLast(d, size, m);
    if k < m { MarksAscend(k, m, size); }
  }

  lemma SpansApart(d: real, size: nat, k: int, m: int)
    requires size >= 1 && d >= 0.0 && 0 <= k < Tiles(d, size) && 0 <= m < Tiles(d, size) && k != m
    ensures SpanOf(d, size, k).hi < SpanOf(d, size, m).lo || SpanOf(d, size, m).hi < SpanOf(d, size, k).lo
  {
    if k < m { SpansInOrder(d, size, k, m); } else { SpansInOrder(d, size, m, k); }
  }

  /** An offset between marks k and k + 1 can only lie in tile k, and does unless it falls in the
      last metre of a full tile. */
  lemma OnlyIn(d: real, size: nat, x: real, k: int)
    requires size >= 1 && 0 <= k && Mark(k, size) <= x < Mark(k + 1, size) && x < d
    ensures k < Tiles(d, size)
    ensures SpanOf(d, size, k).Has(x) <==> Mark(k + 1, size) > d || x <= Mark(k + 1, size) - 1.0
    ensures forall m | 0 <= m < Tiles(d, size) && SpanOf(d, size, m).Has(x) :: m == k
  {
    if 0 < k { MarksAscend(0, k, size); }
    TilesBracket(d, size);
    var n := Tiles(d, size);
    if k >= n { if n < k { MarksAscend(n, k, size); } }
    forall m | 0 <= m < n && SpanOf(d, size, m).Has(x) ensures m == k {
      RaggedIsLast(d, size, m);
      if m < k { MarksAscend(m, k, size); }
      if k < m { MarksAscend(k, m, size); }
    }
  }

  /** Every whole-metre offset short of the end lies in exactly one tile. */
  lemma WholeOffsetInOneSpan(d: real, size: nat, x: int)
    requires size >= 1 && 0 <= x && x as real < d
    ensures var k := x / size; 0 <= k < Tiles(d, size) && SpanOf(d, size, k).Has(x as real)
    ensures forall m | 0 <= m < Tiles(d, size) && SpanOf(d, size, m).Has(x as real) :: m == x / size
  {
    var k := x / size;
    assert k * size + x % size == x && (k + 1) * size == k * size + size;
    OnlyIn(d, size, x as real, k);
  }

  lemma FloorBracket(x: real, size: nat)
    requires size >= 1 && x >= 0.0
    ensures var k := (x / size as real).Floor; k >= 0 && Mark(k, size) <= x < Mark(k + 1, size)
  {
    var f := size as real;
    var q := x / f;
    var k := q.Floor;
    DivideMultiply(x, f);
    BelowMark(q, k, size);
    BelowMark(q, k + 1, size);
  }

  /** Which real offsets are covered: all but those in the last metre of a full tile. */
  lemma CoveredIff(d: real, size: nat, x: real)
    requires size >= 1 && 0.0 <= x < d
    ensures (exists k :: 0 <= k < Tiles(d, size) && SpanOf(d, size, k).Has(x)) <==>
      var end := Mark((x / size as real).Floor + 1, size); end > d || x <= end - 1.0
  {
    FloorBracket(x, size);
    OnlyIn(d, size, x, (x / size as real).Floor);
  }

  /** The total length of the first `m` tiles. */
  function Covered(d: real, size: nat, m: nat): real {
    if m == 0 then 0.0 else Covered(d, size, m - 1) + SpanOf(d, size, m - 1).Length()
  }

  lemma {:induction false} FullTiles(d: real, size: nat, m: nat)
    requires Mark(m, size) <= d
    ensures Covered(d, size, m) == Mark(m, size) - m as real
  {
    if m > 0 {
      MarksAscend(m - 1, m, size);
      FullTiles(d, size, m - 1);
    }
  }

  /** What the tiles cover: the whole extent but one metre for each full tile. */
  lemma CoveredLength(d: real, size: nat)
    requires size >= 1 && d > 0.0
    ensures Tiles(d, size) >= 1
    ensures var n := Tiles(d, size);
      Covered(d, size, n) == if Mark(n, size) == d then d - n as real else d - (n - 1) as real
  {
    TilesBracket(d, size);
    var n := Tiles(d, size);
    assert n != 0;
    FullTiles(d, size, if Mark(n, size) == d then n else n - 1);
  }

  /** Geodesic forward and inverse, as the ellipsoid gives them. */
  datatype Geodesy = Geodesy(
    forward: (real, real, real, real) -> (real, real),
    inverse: (real, real, real, real) -> real)

  function Min(x: real, y: real): real { if x <= y then x else y }

  function Max(x: real, y: real): real { if x <= y then y else x }

  /** The bounds of `box(x0, y0, x1, y1)`, whichever corners it is given. */
  function BoxBounds(x0: real, y0: real, x1: real, y1: real): Rect {
    Rect(Min(x0, x1), Min(y0, y1), Max(x0, x1), Max(y0, y1))
  }

  /** find_cell_bounds: east from the upper left corner by the cell's first range, then south by
      its second. */
  function CellBounds(g: Geodesy, lon: Span, lat: Span, west: real, north: real): Rect {
    var (minLon, tmpLat) := g.forward(west, north, 90.0, lon.lo);
    var maxLon := g.forward(west, north, 90.0, lon.hi).0;
    var minLat := g.forward(minLon, tmpLat, 180.0, lat.lo).1;
    var maxLat := g.forward(minLon, tmpLat, 180.0, lat.hi).1;
    BoxBounds(minLon, minLat, maxLon, maxLat)
  }

  /** The grid over one bounding box. */
  datatype Grid = Grid(bbox: Rect, size: nat, geodesy: Geodesy) {
    function LonDistance(): real { geodesy.inverse(bbox.west, bbox.north, bbox.east, bbox.north) }

    function LatDistance(): real { geodesy.inverse(bbox.west, bbox.north, bbox.west, bbox.south) }

    predicate Valid() { size >= 1 && LonDistance() >= 0.0 && LatDistance() >= 0.0 }

    function Columns(): nat
      requires Valid()
    {
      TilesBracket(LonDistance(), size);
      Tiles(LonDistance(), size)
    }

    function Rows(): nat
      requires Valid()
    {
      TilesBracket(LatDistance(), size);
      Tiles(LatDistance(), size)
    }

    function CellAt(i: int, k: int): Cell {
      var lon, lat := SpanOf(LonDistance(), size, i), SpanOf(LatDistance(), size, k);
      Cell(lon, lat, CellBounds(geodesy, lon, lat, bbox.west, bbox.north))
    }
  }

  /** Row-major: `found` holds columns 0 to i - 1 in full and the first `k` cells of column `i`. */
  ghost predicate IsGrid(g: Grid, found: seq<Cell>, i: int, k: int)
    requires g.Valid()
  {
    && |found| == Index(i, k, g.Rows())
    && forall a, b | 0 <= b < g.Rows() && 0 <= a && (a < i || (a == i && b < k)) ::
         0 <= Index(a, b, g.Rows()) < |found| && found[Index(a, b, g.Rows())] == g.CellAt(a, b)
  }

  /** All the cells, as the nested loops leave them. */
  ghost predicate IsFullGrid(g: Grid, cells: seq<Cell>)
    requires g.Valid()
  {
    IsGrid(g, cells, g.Columns(), 0)
  }

  lemma GridGrows(g: Grid, found: seq<Cell>, i: int, k: int)
    requires g.Valid() && 0 <= i && 0 <= k < g.Rows() && IsGrid(g, found, i, k)
    ensures IsGrid(g, found + [g.CellAt(i, k)], i, k + 1)
  {
    forall a, b | 0 <= b < g.Rows() && 0 <= a && (a < i || (a == i && b < k + 1))
      ensures 0 <= Index(a, b, g.Rows()) < |found| + 1
      ensures (found + [g.CellAt(i, k)])[Index(a, b, g.Rows())] == g.CellAt(a, b)
    {
      assert Index(i, k, g.Rows()) == |found|;
      if a != i || b != k { assert Index(a, b, g.Rows()) < |found| && found[Index(a, b, g.Rows())] == g.CellAt(a, b); }
    }
  }

  lemma ColumnDone(g: Grid, found: seq<Cell>, i: int)
    requires g.Valid() && 0 <= i && IsGrid(g, found, i, g.Rows())
    ensures IsGrid(g, found, i + 1, 0)
  {
    assert Index(i + 1, 0, g.Rows()) == Index(i, g.Rows(), g.Rows());
  }

  lemma IndexParts(q: int, rows: nat)
    requires rows > 0 && q >= 0
    ensures q / rows >= 0 && 0 <= q % rows < rows && q == Index(q / rows, q % rows, rows)
  {
  }

  lemma IndexBelow(i: int, k: int, m: int, rows: nat)
    requires Index(i, k, rows) < Index(m, 0, rows) && k >= 0
    ensures i < m
  {
    if i >= m { Multiples(m, i, rows); }
  }

  /** Every position in the list is some cell of the grid. */
  lemma CellOfIndex(g: Grid, cells: seq<Cell>, q: int) returns (i: int, k: int)
    requires g.Valid() && IsFullGrid(g, cells) && 0 <= q < |cells|
    ensures 0 <= i < g.Columns() && 0 <= k < g.Rows() && q == Index(i, k, g.Rows()) && cells[q] == g.CellAt(i, k)
    ensures i == q / g.Rows() && k == q % g.Rows()
  {
    var rows, n := g.Rows(), g.Columns();
    assert |cells| == Index(n, 0, rows);
    IndexZero(n, rows);
    IndexParts(q, rows);
    i, k := q / rows, q % rows;
    IndexBelow(i, k, n, rows);
    assert cells[Index(i, k, rows)] == g.CellAt(i, k);
  }

  /** `n` tiles are the least that reach the end of an axis. */
  predicate Reach(n: nat, size: nat, d: real) {
    d <= (n * size) as real && (n > 0 ==> ((n - 1) * size) as real < d)
  }

  /** Tile `i` of `n`: a metre short of the next, the last one up to the end unless that is its mark. */
  predicate IsTile(t: Span, i: int, n: nat, size: nat, d: real) {
    t.lo == (i * size) as real && t.hi == if i == n - 1 && (n * size) as real != d then d else ((i + 1) * size) as real - 1.0
  }

  /** The box of a cell: from the upper left corner of the extent east by the ends of its first range, and
      from the first of these points south by the ends of its second. */
  predicate IsBoxOf(r: Rect, g: Geodesy, lon: Span, lat: Span, west: real, north: real) {
    var corner := g.forward(west, north, 90.0, lon.lo);
    var far := g.forward(west, north, 90.0, lon.hi).0;
    var top, bottom := g.forward(corner.0, corner.1, 180.0, lat.lo).1, g.forward(corner.0, corner.1, 180.0, lat.hi).1;
    && r.west <= r.east && ((r.west == corner.0 && r.east == far) || (r.west == far && r.east == corner.0))
    && r.south <= r.north && ((r.south == bottom && r.north == top) || (r.south == top && r.north == bottom))
  }

  /** The grid over the corners of the box: as many columns as tiles reach from its upper left to its upper
      right corner, as many rows as reach down to its lower left one, row after row within a column. */
  ghost predicate IsGridOver(b: Rect, size: nat, g: Geodesy, cells: seq<Cell>, n: nat, m: nat) {
    var width, height := g.inverse(b.west, b.north, b.east, b.north), g.inverse(b.west, b.north, b.west, b.south);
    && Reach(n, size, width) && Reach(m, size, height) && |cells| == n * m
    && forall q | 0 <= q < |cells| ::
         && m > 0 && IsTile(cells[q].lon, q / m, n, size, width) && IsTile(cells[q].lat, q % m, m, size, height)
         && IsBoxOf(cells[q].bounds, g, cells[q].lon, cells[q].lat, b.west, b.north)
  }

  lemma SpanIsTile(d: real, size: nat, i: int)
    requires size >= 1 && d >= 0.0 && 0 <= i < Tiles(d, size)
    ensures IsTile(SpanOf(d, size, i), i, Tiles(d, size), size, d)
  {
    TilesBracket(d, size);
    RaggedIsLast(d, size, i);
  }

  lemma FullGridIsOver(g: Grid, cells: seq<Cell>)
    requires g.Valid() && IsFullGrid(g, cells)
    ensures IsGridOver(g.bbox, g.size, g.geodesy, cells, g.Columns(), g.Rows())
  {
    TilesBracket(g.LonDistance(), g.size);
    TilesBracket(g.LatDistance(), g.size);
    assert |cells| == Index(g.Columns(), 0, g.Rows());
    forall q | 0 <= q < |cells|
      ensures g.Rows() > 0 && IsTile(cells[q].lon, q / g.Rows(), g.Columns(), g.size, g.LonDistance())
      ensures IsTile(cells[q].lat, q % g.Rows(), g.Rows(), g.size, g.LatDistance())
      ensures IsBoxOf(cells[q].bounds, g.geodesy, cells[q].lon, cells[q].lat, g.bbox.west, g.bbox.north)
    {
      var i, k := CellOfIndex(g, cells, q);
      SpanIsTile(g.LonDistance(), g.size, i);
      SpanIsTile(g.LatDistance(), g.size, k);
    }
  }

  /** Every whole-metre offset pair short of the ends lies in exactly one cell. */
  lemma OffsetInOneCell(g: Grid, cells: seq<Cell>, x: int, y: int)
    requires g.Valid() && IsFullGrid(g, cells)
    requires 0 <= x && x as real < g.LonDistance() && 0 <= y && y as real < g.LatDistance()
    ensures exists q :: 0 <= q < |cells| && cells[q].lon.Has(x as real) && cells[q].lat.Has(y as real)
    ensures forall q, r | 0 <= q < |cells| && 0 <= r < |cells| &&
                          cells[q].lon.Has(x as real) && cells[q].lat.Has(y as real) &&
                          cells[r].lon.Has(x as real) && cells[r].lat.Has(y as real) :: q == r
  {
    WholeOffsetInOneSpan(g.LonDistance(), g.size, x);
    WholeOffsetInOneSpan(g.LatDistance(), g.size, y);
    var home := Index(x / g.size, y / g.size, g.Rows());
    assert cells[home] == g.CellAt(x / g.size, y / g.size);
    forall q | 0 <= q < |cells| && cells[q].lon.Has(x as real) && cells[q].lat.Has(y as real) ensures q == home {
      var i, k := CellOfIndex(g, cells, q);
    }
  }

  /** No two cells share an offset, whole or not. */
  lemma CellsDisjoint(g: Grid, cells: seq<Cell>, q: int, r: int, x: real, y: real)
    requires g.Valid() && IsFullGrid(g, cells) && 0 <= q < |cells| && 0 <= r < |cells| && q != r
    ensures !(cells[q].lon.Has(x) && cells[q].lat.Has(y) && cells[r].lon.Has(x) && cells[r].lat.Has(y))
  {
    var i, k := CellOfIndex(g, cells, q);
    var m, n := CellOfIndex(g, cells, r);
    if i < m { SpansInOrder(g.LonDistance(), g.size, i, m); }
    if m < i { SpansInOrder(g.LonDistance(), g.size, m, i); }
    if k < n { SpansInOrder(g.LatDistance(), g.size, k, n); }
    if n < k { SpansInOrder(g.LatDistance(), g.size, n, k); }
  }

  function Areas(cells: seq<Cell>): seq<real> {
    seq(|cells|, q requires 0 <= q < |cells| => Times(cells[q].lon.Length(), cells[q].lat.Length()))
  }

  function Lengths(d: real, size: nat, n: nat): seq<real> {
    seq(n, k => SpanOf(d, size, k).Length())
  }

  lemma {:induction false} LengthsSum(d: real, size: nat, n: nat)
    ensures Sum(Lengths(d, size, n)) == Covered(d, size, n)
  {
    if n > 0 {
      LengthsSum(d, size, n - 1);
      assert Lengths(d, size, n)[..n - 1] == Lengths(d, size, n - 1);
    }
  }

  /** The areas are laid out as `GridSum` wants them. */
  lemma AreaLayout(g: Grid, cells: seq<Cell>, i: nat, h: seq<real>)
    requires g.Valid() && IsFullGrid(g, cells) && i < g.Columns() && h == Lengths(g.LatDistance(), g.size, g.Rows())
    ensures IsColumn(Times, j => Index(j, 0, g.Rows()), Areas(cells), i, SpanOf(g.LonDistance(), g.size, i).Length(), h)
  {
    var q := Index(i, 0, g.Rows());
    IndexZero(i, g.Rows());
    ColumnStart(i, g.Rows());
    Multiples(i + 1, g.Columns(), g.Rows());
    forall k | 0 <= k < g.Rows() ensures Areas(cells)[q..q + |h|][k] == Times(SpanOf(g.LonDistance(), g.size, i).Length(), h[k]) {
      ColumnCell(i, k, g.Rows());
      assert cells[Index(i, k, g.Rows())] == g.CellAt(i, k);
    }
  }

  /** The cells cover the product of what the two axes cover. */
  lemma TotalArea(g: Grid, cells: seq<Cell>)
    requires g.Valid() && IsFullGrid(g, cells)
    ensures Sum(Areas(cells)) == Times(Covered(g.LonDistance(), g.size, g.Columns()), Covered(g.LatDistance(), g.size, g.Rows()))
  {
    var n, m := g.Columns(), g.Rows();
    var w, h := Lengths(g.LonDistance(), g.size, n), Lengths(g.LatDistance(), g.size, m);
    var start := j => Index(j, 0, m);
    LengthsSum(g.LonDistance(), g.size, n);
    LengthsSum(g.LatDistance(), g.size, m);
    IndexZero(0, m);
    TimesBilinear();
    forall i | 0 <= i < n
      ensures IsColumn(Times, start, Areas(cells), i, w[i], h)
    {
      AreaLayout(g, cells, i, h);
    }
    GridSum(Times, start, Areas(cells), w, h, n);
    assert w[..n] == w && Areas(cells)[..|cells|] == Areas(cells);
  }

  /** A projection on which east and south are straight: from the upper left corner, `east(d)` is
      the longitude `d` metres east and `south(d)` the latitude `d` metres south. */
  ghost predicate Straight(g: Grid, east: real -> real, south: real -> real) {
    && (forall d :: g.geodesy.forward(g.bbox.west, g.bbox.north, 90.0, d) == (east(d), g.bbox.north))
    && (forall lon, d :: g.geodesy.forward(lon, g.bbox.north, 180.0, d) == (lon, south(d)))
    && (forall d, e | d < e :: east(d) < east(e) && south(e) < south(d))
    && east(0.0) == g.bbox.west && east(g.geodesy.inverse(g.bbox.west, g.bbox.north, g.bbox.east, g.bbox.north)) == g.bbox.east
    && south(0.0) == g.bbox.north && south(g.geodesy.inverse(g.bbox.west, g.bbox.north, g.bbox.west, g.bbox.south)) == g.bbox.south
  }

  lemma StraightBounds(g: Grid, east: real -> real, south: real -> real, i: int, k: int)
    requires g.Valid() && Straight(g, east, south) && 0 <= i < g.Columns() && 0 <= k < g.Rows()
    ensures var c := g.CellAt(i, k);
      c.bounds == Rect(east(c.lon.lo), south(c.lat.hi), east(c.lon.hi), south(c.lat.lo))
  {
    var c := g.CellAt(i, k);
    SpansInOrder(g.LonDistance(), g.size, i, i);
    SpansInOrder(g.LatDistance(), g.size, k, k);
    assert c.lon.lo < c.lon.hi ==> east(c.lon.lo) < east(c.lon.hi);
    assert c.lat.lo < c.lat.hi ==> south(c.lat.hi) < south(c.lat.lo);
  }

  /** On such a projection every tile's bounds lie in the bounding box. */
  lemma TilesInsideBox(g: Grid, east: real -> real, south: real -> real, cells: seq<Cell>, q: int)
    requires g.Valid() && Straight(g, east, south) && IsFullGrid(g, cells) && 0 <= q < |cells|
    ensures var b := cells[q].bounds;
      g.bbox.west <= b.west <= b.east <= g.bbox.east && g.bbox.south <= b.south <= b.north <= g.bbox.north
  {
    var i, k := CellOfIndex(g, cells, q);
    StraightBounds(g, east, south, i, k);
    SpansInOrder(g.LonDistance(), g.size, i, i);
    SpansInOrder(g.LatDistance(), g.size, k, k);
    forall d, e | d <= e ensures east(d) <= east(e) && south(e) <= south(d) { }
  }

  /** ... and no two tiles' bounds touch. */
  lemma TilesApart(g: Grid, east: real -> real, south: real -> real, cells: seq<Cell>, q: int, r: int)
    requires g.Valid() && Straight(g, east, south) && IsFullGrid(g, cells) && 0 <= q < r < |cells|
    ensures var b, d := cells[q].bounds, cells[r].bounds;
      b.east < d.west || d.east < b.west || b.north < d.south || d.north < b.south
  {
    var i, k := CellOfIndex(g, cells, q);
    var m, n := CellOfIndex(g, cells, r);
    StraightBounds(g, east, south, i, k);
    StraightBounds(g, east, south, m, n);
    if i != m { SpansApart(g.LonDistance(), g.size, i, m); } else { SpansApart(g.LatDistance(), g.size, k, n); }
  }

  class StacGrid {
    const grid: Grid
    var cells: seq<Cell>

    constructor (bbox: Rect, size: nat, geodesy: Geodesy)
      ensures grid == Grid(bbox, size, geodesy) && cells == []
    {
      grid, cells := Grid(bbox, size, geodesy), [];
    }

    /** The cells, every latitude tile of the first longitude tile, then of the next. */
    method SetGridCells()
      requires grid.size >= 1
      requires var b := grid.bbox;
        grid.geodesy.inverse(b.west, b.north, b.east, b.north) >= 0.0 && grid.geodesy.inverse(b.west, b.north, b.west, b.south) >= 0.0
      modifies this`cells
      ensures grid.Valid() && IsFullGrid(grid, cells)
      ensures exists n, m :: IsGridOver(grid.bbox, grid.size, grid.geodesy, cells, n, m)
    {
      var lonDistance, latDistance := grid.LonDistance(), grid.LatDistance();
      var nLon, nLat := Tiles(lonDistance, grid.size), Tiles(latDistance, grid.size);
      TilesBracket(lonDistance, grid.size);
      TilesBracket(latDistance, grid.size);
      var found: seq<Cell> := [];
      var i := 0;
      while i < nLon
        invariant 0 <= i <= nLon
        invariant IsGrid(grid, found, i, 0)
      {
        var lonSpan: Span;
        if Mark(i + 1, grid.size) > lonDistance {
          lonSpan := Span(Mark(i, grid.size), lonDistance);
        } else {
          lonSpan := Span(Mark(i, grid.size), Mark(i + 1, grid.size) - 1.0);
        }
        assert lonSpan == SpanOf(lonDistance, grid.size, i);
        var k := 0;
        while k < nLat
          invariant 0 <= k <= nLat
          invariant IsGrid(grid, found, i, k)
        {
          var latSpan: Span;
          if Mark(k + 1, grid.size) > latDistance {
            latSpan := Span(Mark(k, grid.size), latDistance);
          } else {
            latSpan := Span(Mark(k, grid.size), Mark(k + 1, grid.size) - 1.0);
          }
          assert latSpan == SpanOf(latDistance, grid.size, k);
          var cell := Cell(lonSpan, latSpan, CellBounds(grid.geodesy, lonSpan, latSpan, grid.bbox.west, grid.bbox.north));
          assert cell == grid.CellAt(i, k);
          GridGrows(grid, found, i, k);
          found := found + [cell];
          k := k + 1;
        }
        ColumnDone(grid, found, i);
        i := i + 1;
      }
      cells := found;
      FullGridIsOver(grid, cells);
    }
  }
}
