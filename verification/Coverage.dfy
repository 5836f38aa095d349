/** Serpentine coverage patterns (src/planning/patterns.rs), over reals. */
module Coverage {
  import opened Foundation

  datatype Point = Point(x: real, y: real)

  datatype Position = Position(x: real, y: real, z: real)

  datatype Region = Region(x0: real, x1: real, y0: real, y1: real)

  datatype Context = Context(
    droneId: U32,
    swarmSize: nat,
    areaW: real,
    areaH: real,
    altitudeZ: real,
    scanWidth: real,
    step: nat)

  /** Clamping panics on a negative area, and the scan width is divided by. */
  predicate Flyable(ctx: Context) {
    0.0 <= ctx.areaW && 0.0 <= ctx.areaH && 0.0 < ctx.scanWidth
  }

  /** How many bands of width `w` a side of the given length is cut into. */
  function Bands(length: real, w: real): (n: nat)
    requires 0.0 < w
    ensures 1 <= n
  {
    var n := Ceil(MaxReal(length, w) / w);
    if n < 1 then 1 else n
  }

  datatype Cell = Cell(row: nat, along: nat)

  function Period(cols: nat, rows: nat): (total: nat)
    requires 1 <= cols && 1 <= rows
    ensures 1 <= total
  {
    ProductPositive(cols, rows);
    cols * rows
  }

  /** The cell visited at a step: even rows left to right, odd rows right to left. */
  function CellAt(cols: nat, rows: nat, step: nat): Cell
    requires 1 <= cols && 1 <= rows
  {
    var s := step % Period(cols, rows);
    var row, col := s / cols, s % cols;
    Cell(row, if row % 2 == 0 then col else cols - 1 - col)
  }

  /** The middle of band `k`, but not past the far side. */
  function BandCentre(near: real, far: real, k: nat, w: real): real {
    MinReal(near + Times(k as real + 0.5, w), far)
  }

  function SerpentineInRegion(r: Region, w: real, step: nat): Point
    requires 0.0 < w
  {
    var cell := CellAt(Bands(r.x1 - r.x0, w), Bands(r.y1 - r.y0, w), step);
    Point(BandCentre(r.x0, r.x1, cell.along, w), BandCentre(r.y0, r.y1, cell.row, w))
  }

  function ClampToArea(p: Point, ctx: Context): Position {
    Position(ClampReal(p.x, 0.0, ctx.areaW), ClampReal(p.y, 0.0, ctx.areaH), ctx.altitudeZ)
  }

  function WholeArea(ctx: Context): Region {
    Region(0.0, ctx.areaW, 0.0, ctx.areaH)
  }

  function Boustrophedon(ctx: Context): Position
    requires Flyable(ctx)
  {
    ClampToArea(SerpentineInRegion(WholeArea(ctx), ctx.scanWidth, ctx.step), ctx)
  }

  function Drones(ctx: Context): (n: nat)
    ensures 1 <= n
  {
    if ctx.swarmSize < 1 then 1 else ctx.swarmSize
  }

  /** The vertical strip of the drone numbered `i` of `n`. */
  function Strip(ctx: Context, n: nat, i: nat): Region
    requires 1 <= n
  {
    var width := ctx.areaW / n as real;
    var x0 := Times(i as real, width);
    Region(x0, x0 + width, 0.0, ctx.areaH)
  }

  function PartitionedLawnmower(ctx: Context): Position
    requires Flyable(ctx)
  {
    var n := Drones(ctx);
    ClampToArea(SerpentineInRegion(Strip(ctx, n, ctx.droneId % n), ctx.scanWidth, ctx.step), ctx)
  }

  // ------------------------------------------------------------- the walk over cells

  lemma ProductPositive(a: nat, b: nat)
    requires 1 <= a && 1 <= b
    ensures 1 <= a * b
  {
  }

  lemma MulStep(k: int, d: nat)
    ensures 1 <= k ==> d <= k * d
    ensures k <= -1 ==> k * d + d <= 0
  {
    if 1 <= k {
      MulAtLeast(k, d);
    } else if k <= -1 {
      MulAtLeast(-k, d);
      assert (-k) * d == -(k * d);
    }
  }

  lemma MulAtLeast(k: nat, d: nat)
    requires 1 <= k
    ensures d <= k * d
  {
  }

  /** Quotient and remainder are unique. */
  lemma DivModOf(x: nat, q: nat, r: nat, d: nat)
    requires r < d && x == q * d + r
    ensures x / d == q && x % d == r
  {
    var k := q - x / d;
    assert x == x / d * d + x % d;
    assert k * d == q * d - x / d * d;
    MulStep(k, d);
  }

  predicate InGrid(cols: nat, rows: nat, cell: Cell) {
    cell.row < rows && cell.along < cols
  }

  /** The position of a cell in the walk. */
  function IndexOf(cols: nat, cell: Cell): int {
    cell.row * cols + (if cell.row % 2 == 0 then cell.along else cols - 1 - cell.along)
  }

  lemma RowsBelow(row: nat, rows: nat, cols: nat, col: nat)
    requires col < cols
    ensures row < rows <==> row * cols + col < cols * rows
  {
    assert cols * rows - row * cols == (rows - row) * cols;
    MulStep(rows - row, cols);
  }

  lemma CellIsInGrid(cols: nat, rows: nat, step: nat)
    requires 1 <= cols && 1 <= rows
    ensures InGrid(cols, rows, CellAt(cols, rows, step))
    ensures IndexOf(cols, CellAt(cols, rows, step)) == step % Period(cols, rows)
  {
    var s := step % Period(cols, rows);
    assert s == s / cols * cols + s % cols;
    RowsBelow(s / cols, rows, cols, s % cols);
  }

  lemma IndexInverts(cols: nat, rows: nat, cell: Cell, step: nat)
    requires 1 <= cols && 1 <= rows && InGrid(cols, rows, cell)
    requires step % Period(cols, rows) == IndexOf(cols, cell)
    ensures CellAt(cols, rows, step) == cell
  {
    var col := if cell.row % 2 == 0 then cell.along else cols - 1 - cell.along;
    DivModOf(step % Period(cols, rows), cell.row, col, cols);
  }

  /** The step of the window `[base, base + total)` that is congruent to `index`. */
  lemma StepInWindow(total: nat, base: nat, index: nat) returns (s: nat)
    requires index < total
    ensures base <= s < base + total && s % total == index
    ensures forall t: nat | base <= t < base + total && t % total == index :: t == s
  {
    var q, r := base / total, base % total;
    assert base == q * total + r;
    if r <= index {
      s := q * total + index;
      DivModOf(s, q, index, total);
    } else {
      s := (q + 1) * total + index;
      assert (q + 1) * total == q * total + total;
      DivModOf(s, q + 1, index, total);
    }
    forall t: nat | base <= t < base + total && t % total == index
      ensures t == s
    {
      SameResidue(s, t, total);
    }
  }

  lemma SameResidue(s: nat, t: nat, total: nat)
    requires 1 <= total && s % total == t % total && s < t + total && t < s + total
    ensures s == t
  {
    var k := s / total - t / total;
    assert s == s / total * total + s % total && t == t / total * total + t % total;
    assert k * total == s - t;
    MulStep(k, total);
  }

  /** In any window of one period, every cell of the grid is visited at exactly one step. */
  lemma EachCellOnce(cols: nat, rows: nat, base: nat, cell: Cell) returns (s: nat)
    requires 1 <= cols && 1 <= rows && InGrid(cols, rows, cell)
    ensures base <= s < base + Period(cols, rows) && CellAt(cols, rows, s) == cell
    ensures forall t: nat | base <= t < base + Period(cols, rows) && CellAt(cols, rows, t) == cell :: t == s
  {
    var col := if cell.row % 2 == 0 then cell.along else cols - 1 - cell.along;
    RowsBelow(cell.row, rows, cols, col);
    s := StepInWindow(Period(cols, rows), base, IndexOf(cols, cell));
    IndexInverts(cols, rows, cell, s);
    forall t: nat | base <= t < base + Period(cols, rows) && CellAt(cols, rows, t) == cell
      ensures t == s
    {
      CellIsInGrid(cols, rows, t);
    }
  }

  predicate Adjacent(c: Cell, d: Cell) {
    || (c.row == d.row && (c.along + 1 == d.along || d.along + 1 == c.along))
    || (c.along == d.along && (c.row + 1 == d.row || d.row + 1 == c.row))
  }

  lemma NextResidue(step: nat, total: nat)
    requires 1 <= total && step % total + 1 < total
    ensures (step + 1) % total == step % total + 1
  {
    DivModOf(step + 1, step / total, step % total + 1, total);
  }

  /** The next position in the walk is the next column, or the first of the next row. */
  lemma NextPosition(s: nat, cols: nat)
    requires 1 <= cols
    ensures if s % cols + 1 < cols
            then (s + 1) / cols == s / cols && (s + 1) % cols == s % cols + 1
            else (s + 1) / cols == s / cols + 1 && (s + 1) % cols == 0
  {
    var q, r := s / cols, s % cols;
    assert s == q * cols + r;
    if r + 1 < cols {
      DivModOf(s + 1, q, r + 1, cols);
    } else {
      assert (q + 1) * cols == q * cols + cols;
      DivModOf(s + 1, q + 1, 0, cols);
    }
  }

  lemma ParityFlips(row: nat)
    ensures ((row + 1) % 2 == 0) != (row % 2 == 0)
  {
  }

  /** Consecutive cells of a sweep share a side. */
  lemma StepsToNeighbour(cols: nat, rows: nat, step: nat)
    requires 1 <= cols && 1 <= rows && step % Period(cols, rows) + 1 < Period(cols, rows)
    ensures Adjacent(CellAt(cols, rows, step), CellAt(cols, rows, step + 1))
  {
    NextResidue(step, Period(cols, rows));
    var s := step % Period(cols, rows);
    NextPosition(s, cols);
    ParityFlips(s / cols);
  }

  // -------------------------------------------------------------- the points covered

  predicate Near(a: real, b: real, w: real) {
    -w / 2.0 <= a - b <= w / 2.0
  }

  lemma TimesAdds(a: real, b: real, w: real)
    ensures Times(a + b, w) == Times(a, w) + Times(b, w)
  {
  }

  lemma HalfBand(k: nat, w: real)
    ensures Times(k as real + 0.5, w) == Times(k as real, w) + w / 2.0
    ensures Times((k + 1) as real, w) == Times(k as real, w) + w
  {
    TimesAdds(k as real, 0.5, w);
    TimesAdds(k as real, 1.0, w);
  }

  lemma BandsReach(length: real, w: real)
    requires 0.0 < w
    ensures length <= Times(Bands(length, w) as real, w)
  {
    var longest := MaxReal(length, w);
    assert Times(longest / w, w) == longest;
    TimesMonotone(longest / w, Bands(length, w) as real, w);
  }

  /** No band is superfluous: all but the last fall short of the side. */
  lemma BandsTight(length: real, w: real)
    requires 0.0 < w
    ensures Bands(length, w) == 1 || Times((Bands(length, w) - 1) as real, w) < length
  {
    var n := Bands(length, w);
    if length < w {
      assert w / w == 1.0;
    } else if n != 1 {
      assert Times(length / w, w) == length;
      TimesStrict((n - 1) as real, length / w, w);
    }
  }

  /** The bands below `n` cover everything up to their total width. */
  lemma {:induction false} SomeBandHolds(q: real, n: nat, w: real) returns (k: nat)
    requires 0.0 <= q <= Times(n as real, w) && 1 <= n && 0.0 < w
    ensures k < n && Times(k as real, w) <= q <= Times(k as real, w) + w
  {
    HalfBand(n - 1, w);
    if Times((n - 1) as real, w) <= q {
      k := n - 1;
    } else {
      assert n == 1 ==> Times(0.0, w) == 0.0;
      k := SomeBandHolds(q, n - 1, w);
    }
  }

  /** Every point of a side is within half a band of the centre of some band. */
  lemma BandCovers(near: real, far: real, p: real, w: real) returns (k: nat)
    requires 0.0 < w && near <= p <= far
    ensures k < Bands(far - near, w) && Near(p, BandCentre(near, far, k, w), w)
  {
    BandsReach(far - near, w);
    k := SomeBandHolds(p - near, Bands(far - near, w), w);
    HalfBand(k, w);
  }

  lemma CentreOnSide(near: real, far: real, k: nat, w: real)
    requires 0.0 < w && near <= far
    ensures near <= BandCentre(near, far, k, w) <= far
  {
    HalfBand(k, w);
    TimesMonotone(0.0, k as real, w);
    assert Times(0.0, w) == 0.0;
  }

  predicate Contains(r: Region, p: Point) {
    r.x0 <= p.x <= r.x1 && r.y0 <= p.y <= r.y1
  }

  /** A walk never leaves its region. */
  lemma StaysInRegion(r: Region, w: real, step: nat)
    requires 0.0 < w && r.x0 <= r.x1 && r.y0 <= r.y1
    ensures Contains(r, SerpentineInRegion(r, w, step))
  {
    var cell := CellAt(Bands(r.x1 - r.x0, w), Bands(r.y1 - r.y0, w), step);
    CentreOnSide(r.x0, r.x1, cell.along, w);
    CentreOnSide(r.y0, r.y1, cell.row, w);
  }

  function WalkLength(r: Region, w: real): nat
    requires 0.0 < w
  {
    Period(Bands(r.x1 - r.x0, w), Bands(r.y1 - r.y0, w))
  }

  predicate Sees(waypoint: Point, p: Point, w: real) {
    Near(p.x, waypoint.x, w) && Near(p.y, waypoint.y, w)
  }

  /** In any period of a walk every point of the region is seen. */
  lemma RegionCovered(r: Region, w: real, base: nat, p: Point) returns (s: nat)
    requires 0.0 < w && Contains(r, p)
    ensures base <= s < base + WalkLength(r, w) && Sees(SerpentineInRegion(r, w, s), p, w)
  {
    var along := BandCovers(r.x0, r.x1, p.x, w);
    var row := BandCovers(r.y0, r.y1, p.y, w);
    s := EachCellOnce(Bands(r.x1 - r.x0, w), Bands(r.y1 - r.y0, w), base, Cell(row, along));
  }

  // ------------------------------------------------------------------- the strips

  lemma StripWidth(ctx: Context, n: nat)
    requires Flyable(ctx) && 1 <= n
    ensures 0.0 <= ctx.areaW / n as real
    ensures Times(n as real, ctx.areaW / n as real) == ctx.areaW
  {
    QuotientOfArea(ctx.areaW, n as real);
  }

  lemma QuotientOfArea(w: real, n: real)
    requires 0.0 <= w && 0.0 < n
    ensures 0.0 <= w / n && Times(n, w / n) == w
  {
  }

  /** Strip `i` lies in the area and ends where strip `i + 1` begins. */
  lemma StripsTile(ctx: Context, n: nat, i: nat)
    requires Flyable(ctx) && i < n
    ensures 0.0 <= Strip(ctx, n, i).x0 <= Strip(ctx, n, i).x1 <= ctx.areaW
    ensures Strip(ctx, n, i).x1 == Times((i + 1) as real, ctx.areaW / n as real)
  {
    var width := ctx.areaW / n as real;
    StripWidth(ctx, n);
    HalfBand(i, width);
    TimesMonotone(0.0, i as real, width);
    TimesMonotone((i + 1) as real, n as real, width);
    assert Times(0.0, width) == 0.0;
  }

  /** Two strips share at most a border. */
  lemma StripsApart(ctx: Context, n: nat, i: nat, j: nat)
    requires Flyable(ctx) && i < j < n
    ensures Strip(ctx, n, i).x1 <= Strip(ctx, n, j).x0
  {
    StripsTile(ctx, n, i);
    StripWidth(ctx, n);
    TimesMonotone((i + 1) as real, j as real, ctx.areaW / n as real);
  }

  function Waypoint(p: Position): Point {
    Point(p.x, p.y)
  }

  /** A drone never leaves its own strip, so clamping to the area moves nothing. */
  lemma StaysInStrip(ctx: Context)
    requires Flyable(ctx)
    ensures Contains(Strip(ctx, Drones(ctx), ctx.droneId % Drones(ctx)), Waypoint(PartitionedLawnmower(ctx)))
    ensures Waypoint(PartitionedLawnmower(ctx))
            == SerpentineInRegion(Strip(ctx, Drones(ctx), ctx.droneId % Drones(ctx)), ctx.scanWidth, ctx.step)
    ensures PartitionedLawnmower(ctx).z == ctx.altitudeZ
  {
    var n := Drones(ctx);
    StripsTile(ctx, n, ctx.droneId % n);
    StaysInRegion(Strip(ctx, n, ctx.droneId % n), ctx.scanWidth, ctx.step);
  }

  lemma SomeStripHolds(ctx: Context, n: nat, x: real) returns (i: nat)
    requires Flyable(ctx) && 1 <= n && 0.0 <= x <= ctx.areaW
    ensures i < n && Strip(ctx, n, i).x0 <= x <= Strip(ctx, n, i).x1
  {
    var width := ctx.areaW / n as real;
    StripWidth(ctx, n);
    if width == 0.0 {
      i := 0;
      assert Times(0.0, width) == 0.0 && Times(n as real, 0.0) == 0.0;
    } else {
      i := SomeBandHolds(x, n, width);
    }
  }

  /** The same number of steps for every drone. */
  function SweepLength(ctx: Context): nat
    requires Flyable(ctx)
  {
    var n := Drones(ctx);
    Period(Bands(ctx.areaW / n as real, ctx.scanWidth), Bands(ctx.areaH, ctx.scanWidth))
  }

  /** In any sweep, every point of the whole area is seen by the drone whose strip holds it. */
  lemma AreaCovered(ctx: Context, base: nat, p: Point) returns (i: nat, s: nat)
    requires Flyable(ctx) && Drones(ctx) <= U32_MAX && Contains(WholeArea(ctx), p)
    ensures i < Drones(ctx) && base <= s < base + SweepLength(ctx)
    ensures Sees(Waypoint(PartitionedLawnmower(ctx.(droneId := i, step := s))), p, ctx.scanWidth)
  {
    var n := Drones(ctx);
    i := SomeStripHolds(ctx, n, p.x);
    s := RegionCovered(Strip(ctx, n, i), ctx.scanWidth, base, p);
    SameStrip(ctx, n, i, s);
    StaysInStrip(ctx.(droneId := i, step := s));
  }

  lemma SameStrip(ctx: Context, n: nat, i: nat, s: nat)
    requires Flyable(ctx) && n == Drones(ctx) && i < n && n <= U32_MAX
    ensures var own := ctx.(droneId := i, step := s);
            Drones(own) == n && own.droneId % n == i && Strip(own, n, i) == Strip(ctx, n, i)
    ensures WalkLength(Strip(ctx, n, i), ctx.scanWidth) == SweepLength(ctx)
  {
    DivModOf(i, 0, i, n);
  }

  /** One drone flying the classic pattern sees the whole area in one period as well. */
  lemma BoustrophedonCovers(ctx: Context, base: nat, p: Point) returns (s: nat)
    requires Flyable(ctx) && Contains(WholeArea(ctx), p)
    ensures base <= s < base + WalkLength(WholeArea(ctx), ctx.scanWidth)
    ensures Sees(Waypoint(Boustrophedon(ctx.(step := s))), p, ctx.scanWidth)
  {
    s := RegionCovered(WholeArea(ctx), ctx.scanWidth, base, p);
    StaysInRegion(WholeArea(ctx), ctx.scanWidth, s);
  }
}
