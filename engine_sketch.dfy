/** engine_sketch.py: the activity page, a randomised grid maze with two
    seek targets and scattered shape icons, drawn into the free area of a
    page. Lengths are PostScript points as reals; `random.Random` is the
    opaque generator of RandomSource, so the model fixes which draw decides
    what, not the values drawn. */
module EngineSketch {
  import opened Wrappers
  import SeqUtil
  import PyInt
  import RandomSource

  /** `v * mm`: v millimetres in points (ReportLab's `mm` is 72 / 25.4). */
  function Mm(v: real): real {
    v * 72.0 / 25.4
  }

  /** `ActivityLayout`, with its defaults in DEFAULT_LAYOUT. The fields
      `title_gap_mm`, `seek_text_gap_mm` and `min_cell_mm` exist in the
      dataclass; only the title gap is read by the drawing code. */
  datatype ActivityLayout = ActivityLayout(
    title: string, mazeCellsX: int, mazeCellsY: int, wallDensity: real, iconsCount: int,
    markerRMm: real, iconRMm: real, safePadMm: real, titleGapMm: real)

  const DEFAULT_LAYOUT: ActivityLayout :=
    ActivityLayout("Aktivit\U{e4}t: Labyrinth + Suchauftrag", 10, 14, 0.82, 18, 3.0, 2.5, 2.5, 10.0)

  /** `_clamp(v, lo, hi)`: `max(lo, min(hi, v))`. */
  function Clamp(v: real, lo: real, hi: real): (r: real)
    ensures lo <= hi ==> lo <= r <= hi
    ensures lo <= v <= hi ==> r == v
    ensures v < lo ==> r == lo
    ensures lo <= hi < v ==> r == hi
  {
    var m := if hi < v then hi else v;
    if lo < m then m else lo
  }

  /** Clamping twice to the same range changes nothing more. */
  lemma ClampIdempotent(v: real, lo: real, hi: real)
    requires lo <= hi
    ensures Clamp(Clamp(v, lo, hi), lo, hi) == Clamp(v, lo, hi)
  {
  }

  /** Clamping keeps order. */
  lemma ClampMonotone(u: real, v: real, lo: real, hi: real)
    requires lo <= hi && u <= v
    ensures Clamp(u, lo, hi) <= Clamp(v, lo, hi)
  {
  }

  // ---------------------------------------------------------------------
  // Grid size
  // ---------------------------------------------------------------------

  /** The smallest cell edge the maze keeps while it can: 4 mm. */
  const MIN_CELL: real := Mm(4.0)

  /** Cells of `len` split into n are below the minimum edge. */
  predicate TooSmall(len: real, n: int)
    requires n > 0
  {
    len / n as real < MIN_CELL
  }

  /** The count the reduction loop stops at: one cell fewer at a time
      while the cells are too small and there are more than four. Only
      counts that were too small are given up, and the loop never goes
      below four. */
  function ReducedCount(n: int, len: real): (r: int)
    requires n >= 2
    ensures 2 <= r <= n
    ensures n <= 4 ==> r == n
    ensures n > 4 ==> r >= 4
    ensures r == 4 || r == n || !TooSmall(len, r)
    ensures r > 4 ==> !TooSmall(len, r)
    ensures forall m :: r < m <= n ==> TooSmall(len, m)
    decreases n
  {
    if TooSmall(len, n) && n > 4 then ReducedCount(n - 1, len) else n
  }

  /** A count that is already large enough cells is kept. */
  lemma ReducedCountKeeps(n: int, len: real)
    requires n >= 2 && !TooSmall(len, n)
    ensures ReducedCount(n, len) == n
  {
  }

  /** One reduction loop of `_draw_maze`. */
  method ReduceGrid(n0: int, len: real) returns (n: int, edge: real)
    requires n0 >= 2
    ensures n == ReducedCount(n0, len) && edge == len / n as real
  {
    n := n0;
    edge := len / n as real;
    while edge < MIN_CELL && n > 4
      invariant 2 <= n <= n0
      invariant edge == len / n as real
      invariant ReducedCount(n, len) == ReducedCount(n0, len)
      decreases n
    {
      n := n - 1;
      edge := len / n as real;
    }
  }

  // ---------------------------------------------------------------------
  // Walls
  // ---------------------------------------------------------------------

  /** The cells along a wall that get a segment: all of 0 .. n-1 but the
      gap, in order. */
  function CellsExcept(n: int, gap: int): (cells: seq<int>)
    requires 0 <= gap < n
    ensures |cells| == n - 1
    ensures gap !in cells
    ensures forall k :: 0 <= k < |cells| ==> 0 <= cells[k] < n
    ensures forall k, k' :: 0 <= k < k' < |cells| ==> cells[k] < cells[k']
  {
    seq(n - 1, k requires 0 <= k < n - 1 => if k < gap then k else k + 1)
  }

  /** Every cell but the gap gets a segment: exactly one cell is left
      open. */
  lemma CellsExceptCovers(n: int, gap: int)
    requires 0 <= gap < n
    ensures forall j :: 0 <= j < n ==> (j in CellsExcept(n, gap) <==> j != gap)
  {
    var cells := CellsExcept(n, gap);
    forall j | 0 <= j < n && j != gap ensures j in cells {
      assert cells[if j < gap then j else j - 1] == j;
    }
  }

  /** The inner loop: one segment per cell, skipping the gap. */
  method WallCells(n: int, gap: int) returns (cells: seq<int>)
    requires 0 <= gap < n
    ensures cells == CellsExcept(n, gap)
  {
    cells := [];
    for j := 0 to n
      invariant |cells| == (if j <= gap then j else j - 1)
      invariant forall k :: 0 <= k < |cells| ==> cells[k] == CellsExcept(n, gap)[k]
    {
      if j == gap {
        continue;
      }
      cells := cells + [j];
    }
  }

  /** An internal wall: the grid line it lies on, the cell left open, and
      the cells that get a segment. */
  datatype Wall = Wall(line: int, gap: int, cells: seq<int>)

  /** The walls drawn on grid lines `line` .. `last - 1` by the generator
      seeded with `seed` from draw `step` on, and the draw after them:
      each line takes one `random()`, and a line that gets a wall one
      `randint(0, count - 1)` for its gap. */
  function WallsFrom(src: RandomSource.Source, seed: int, step: nat, line: int, last: int,
                     count: int, density: real): (r: (seq<Wall>, nat))
    requires count >= 1
    decreases last - line
  {
    if line >= last then ([], step)
    else if RandomSource.Unit(src, seed, step) < density then
      var gap := RandomSource.Below(src, seed, step + 1, count);
      var rest := WallsFrom(src, seed, step + 2, line + 1, last, count, density);
      ([Wall(line, gap, CellsExcept(count, gap))] + rest.0, rest.1)
    else WallsFrom(src, seed, step + 1, line + 1, last, count, density)
  }

  /** Each wall lies on a line of the range, in increasing order; its gap
      is a cell of the wall, and it has a segment on every other cell,
      `count - 1` in all. */
  lemma {:induction false} WallsShape(src: RandomSource.Source, seed: int, step: nat, line: int, last: int,
                                      count: int, density: real)
    requires count >= 1
    ensures var walls := WallsFrom(src, seed, step, line, last, count, density).0;
      |walls| <= (if last > line then last - line else 0) &&
      (forall k :: 0 <= k < |walls| ==>
         line <= walls[k].line < last && 0 <= walls[k].gap < count &&
         walls[k].cells == CellsExcept(count, walls[k].gap) && |walls[k].cells| == count - 1) &&
      (forall k, k' :: 0 <= k < k' < |walls| ==> walls[k].line < walls[k'].line)
    decreases last - line
  {
    if line < last {
      if RandomSource.Unit(src, seed, step) < density {
        WallsShape(src, seed, step + 2, line + 1, last, count, density);
      } else {
        WallsShape(src, seed, step + 1, line + 1, last, count, density);
      }
    }
  }

  /** With the density at 1 every line gets a wall (each `random()` is
      below 1); at 0 none does. */
  lemma {:induction false} WallsByDensity(src: RandomSource.Source, seed: int, step: nat, line: int, last: int,
                                          count: int, density: real)
    requires count >= 1 && line <= last
    ensures density >= 1.0 ==> |WallsFrom(src, seed, step, line, last, count, density).0| == last - line
    ensures density <= 0.0 ==> WallsFrom(src, seed, step, line, last, count, density).0 == []
    decreases last - line
  {
    if line < last {
      if RandomSource.Unit(src, seed, step) < density {
        WallsByDensity(src, seed, step + 2, line + 1, last, count, density);
      } else {
        WallsByDensity(src, seed, step + 1, line + 1, last, count, density);
      }
    }
  }

  /** One wall loop of `_draw_maze`, over grid lines 1 .. lines-1, with
      `count` cells along each wall. */
  method DrawWalls(rng: RandomSource.Rng, lines: int, count: int, density: real) returns (walls: seq<Wall>)
    requires count >= 1
    modifies rng
    ensures walls == WallsFrom(rng.src, rng.seed, old(rng.step), 1, lines, count, density).0
    ensures rng.step == WallsFrom(rng.src, rng.seed, old(rng.step), 1, lines, count, density).1
  {
    ghost var total := WallsFrom(rng.src, rng.seed, rng.step, 1, lines, count, density);
    walls := [];
    var i := 1;
    while i < lines
      invariant i >= 1
      invariant total.0 == walls + WallsFrom(rng.src, rng.seed, rng.step, i, lines, count, density).0
      invariant total.1 == WallsFrom(rng.src, rng.seed, rng.step, i, lines, count, density).1
      decreases lines - i
    {
      ghost var before := rng.step;
      ghost var rest := WallsFrom(rng.src, rng.seed, before, i, lines, count, density);
      var u := rng.Random();
      if u < density {
        var gap := rng.RandInt(0, count - 1);
        var cells := WallCells(count, gap);
        ghost var next := WallsFrom(rng.src, rng.seed, rng.step, i + 1, lines, count, density);
        assert rest == ([Wall(i, gap, cells)] + next.0, next.1);
        walls := walls + [Wall(i, gap, cells)];
      }
      i := i + 1;
    }
  }

  // ---------------------------------------------------------------------
  // The maze
  // ---------------------------------------------------------------------

  /** What `_draw_maze` draws: the border box, the grid it settled on,
      the vertical walls (on vertical grid lines, cells counted along y)
      and the horizontal ones, and the centres of the start and end
      circles. */
  datatype Maze = Maze(x: real, y: real, w: real, h: real, cx: int, cy: int, cw: real, ch: real,
                       vertical: seq<Wall>, horizontal: seq<Wall>,
                       start: (real, real), end: (real, real))

  function Max(a: real, b: real): real {
    if a < b then b else a
  }

  function MaxInt(a: int, b: int): int {
    if a < b then b else a
  }

  /** The maze `_draw_maze` draws in the box (x, y, w, h) with the
      generator seeded with `seed` from draw `step` on: the inner area is
      the box less the safe padding (at least 1pt each way); the grid
      starts at `max(2, cells)` and is reduced while cells are under 4 mm;
      the vertical walls are drawn first, then the horizontal ones. */
  function MazeOf(src: RandomSource.Source, seed: int, step: nat, x: real, y: real, w: real, h: real,
                  cellsX: int, cellsY: int, density: real, safePad: real): Maze {
    var iw := Max(1.0, w - 2.0 * safePad);
    var ih := Max(1.0, h - 2.0 * safePad);
    var cx := ReducedCount(MaxInt(2, cellsX), iw);
    var cy := ReducedCount(MaxInt(2, cellsY), ih);
    var cw := iw / cx as real;
    var ch := ih / cy as real;
    var vertical := WallsFrom(src, seed, step, 1, cx, cy, density);
    var horizontal := WallsFrom(src, seed, vertical.1, 1, cy, cx, density);
    Maze(x, y, w, h, cx, cy, cw, ch, vertical.0, horizontal.0,
         (x + safePad + cw * 0.5, y + safePad + ch * 0.5), (x + safePad + iw - cw * 0.5, y + safePad + ih - ch * 0.5))
  }

  /** The draws the maze uses up. */
  function MazeSteps(src: RandomSource.Source, seed: int, step: nat, w: real, h: real,
                     cellsX: int, cellsY: int, density: real, safePad: real): nat {
    var iw := Max(1.0, w - 2.0 * safePad);
    var ih := Max(1.0, h - 2.0 * safePad);
    var cx := ReducedCount(MaxInt(2, cellsX), iw);
    var cy := ReducedCount(MaxInt(2, cellsY), ih);
    var vertical := WallsFrom(src, seed, step, 1, cx, cy, density);
    WallsFrom(src, seed, vertical.1, 1, cy, cx, density).1
  }

  /** `_draw_maze`. */
  method DrawMaze(rng: RandomSource.Rng, x: real, y: real, w: real, h: real,
                  cellsX: int, cellsY: int, density: real, safePad: real) returns (maze: Maze)
    modifies rng
    ensures maze == MazeOf(rng.src, rng.seed, old(rng.step), x, y, w, h, cellsX, cellsY, density, safePad)
    ensures rng.step == MazeSteps(rng.src, rng.seed, old(rng.step), w, h, cellsX, cellsY, density, safePad)
  {
    var ix := x + safePad;
    var iy := y + safePad;
    var iw := Max(1.0, w - 2.0 * safePad);
    var ih := Max(1.0, h - 2.0 * safePad);
    var cx, cw := ReduceGrid(MaxInt(2, cellsX), iw);
    var cy, ch := ReduceGrid(MaxInt(2, cellsY), ih);
    var vertical := DrawWalls(rng, cx, cy, density);
    var horizontal := DrawWalls(rng, cy, cx, density);
    maze := Maze(x, y, w, h, cx, cy, cw, ch, vertical, horizontal,
                 (ix + cw * 0.5, iy + ch * 0.5), (ix + iw - cw * 0.5, iy + ih - ch * 0.5));
  }

  /** The maze keeps at least two cells each way, and more than four only
      when they are at least 4 mm; its cells tile the inner area exactly;
      the start circle sits in the middle of the first cell and the end
      circle in the middle of the last. */
  lemma MazeGrid(src: RandomSource.Source, seed: int, step: nat, x: real, y: real, w: real, h: real,
                 cellsX: int, cellsY: int, density: real, safePad: real)
    ensures var m := MazeOf(src, seed, step, x, y, w, h, cellsX, cellsY, density, safePad);
      var iw := Max(1.0, w - 2.0 * safePad);
      var ih := Max(1.0, h - 2.0 * safePad);
      2 <= m.cx && 2 <= m.cy &&
      (m.cx > 4 ==> m.cw >= MIN_CELL) && (m.cy > 4 ==> m.ch >= MIN_CELL) &&
      m.cw * m.cx as real == iw && m.ch * m.cy as real == ih &&
      m.start == (x + safePad + m.cw / 2.0, y + safePad + m.ch / 2.0) &&
      m.end == (x + safePad + iw - m.cw / 2.0, y + safePad + ih - m.ch / 2.0)
  {
  }

  /** Each wall of the maze lies on an inner grid line and leaves exactly
      one cell open. */
  lemma MazeWalls(src: RandomSource.Source, seed: int, step: nat, x: real, y: real, w: real, h: real,
                  cellsX: int, cellsY: int, density: real, safePad: real)
    ensures var m := MazeOf(src, seed, step, x, y, w, h, cellsX, cellsY, density, safePad);
      (forall k :: 0 <= k < |m.vertical| ==>
         1 <= m.vertical[k].line < m.cx && 0 <= m.vertical[k].gap < m.cy &&
         |m.vertical[k].cells| == m.cy - 1 && m.vertical[k].gap !in m.vertical[k].cells) &&
      (forall k :: 0 <= k < |m.horizontal| ==>
         1 <= m.horizontal[k].line < m.cy && 0 <= m.horizontal[k].gap < m.cx &&
         |m.horizontal[k].cells| == m.cx - 1 && m.horizontal[k].gap !in m.horizontal[k].cells)
  {
    var m := MazeOf(src, seed, step, x, y, w, h, cellsX, cellsY, density, safePad);
    var vertical := WallsFrom(src, seed, step, 1, m.cx, m.cy, density);
    WallsShape(src, seed, step, 1, m.cx, m.cy, density);
    WallsShape(src, seed, vertical.1, 1, m.cy, m.cx, density);
  }

  // ---------------------------------------------------------------------
  // Seek objects
  // ---------------------------------------------------------------------

  const SHAPES: seq<string> := ["KREIS", "QUADRAT", "DREIECK"]

  /** An icon: its shape and its centre. */
  datatype Icon = Icon(shape: string, x: real, y: real)

  /** What `_draw_seek_objects` draws: the instruction line with the two
      targets, and the icons. */
  datatype Seek = Seek(targets: seq<string>, instruction: string, icons: seq<Icon>)

  /** `f"Suchauftrag: Finde {a} und {b} im Labyrinth und markiere sie."` */
  function Instruction(a: string, b: string): string {
    "Suchauftrag: Finde " + a + " und " + b + " im Labyrinth und markiere sie."
  }

  /** `lo + u * span`: a draw in [0, 1) scaled by a positive span from
      `lo` lies in [lo, lo + span). */
  function Scaled(u: real, lo: real, span: real): (r: real)
    requires 0.0 <= u < 1.0
    ensures span > 0.0 ==> lo <= r < lo + span
  {
    assert span > 0.0 ==> span - u * span == (1.0 - u) * span;
    lo + u * span
  }

  /** The icon the generator seeded with `seed` places with draws `step`,
      `step + 1` and `step + 2`: a point of the box `[x0, x0 + spanX) x
      [y0, y0 + spanY)` and a shape. */
  function IconAt(src: RandomSource.Source, seed: int, step: nat, x0: real, y0: real,
                  spanX: real, spanY: real): Icon {
    Icon(SHAPES[RandomSource.Below(src, seed, step + 2, 3)],
         Scaled(RandomSource.Unit(src, seed, step), x0, spanX), Scaled(RandomSource.Unit(src, seed, step + 1), y0, spanY))
  }

  /** The icons placed by the generator seeded with `seed` from draw
      `step` on, three draws each. */
  function IconsFrom(src: RandomSource.Source, seed: int, step: nat, x0: real, y0: real,
                     spanX: real, spanY: real, n: nat): (icons: seq<Icon>)
    ensures |icons| == n
  {
    seq(n, k requires 0 <= k < n => IconAt(src, seed, step + 3 * k, x0, y0, spanX, spanY))
  }

  /** The icon loop of `_draw_seek_objects`. */
  method PlaceIcons(rng: RandomSource.Rng, x0: real, y0: real, spanX: real, spanY: real, n: nat)
    returns (icons: seq<Icon>)
    modifies rng
    ensures icons == IconsFrom(rng.src, rng.seed, old(rng.step), x0, y0, spanX, spanY, n)
    ensures rng.step == old(rng.step) + 3 * n
  {
    icons := [];
    ghost var first := rng.step;
    for k := 0 to n
      invariant |icons| == k && rng.step == first + 3 * k
      invariant forall m :: 0 <= m < k ==> icons[m] == IconAt(rng.src, rng.seed, first + 3 * m, x0, y0, spanX, spanY)
    {
      var u := rng.Random();
      var sx := Scaled(u, x0, spanX);
      var v := rng.Random();
      var sy := Scaled(v, y0, spanY);
      var t := rng.Choice(SHAPES);
      icons := icons + [Icon(t, sx, sy)];
    }
  }

  /** The padding that keeps icons off the edges of the maze box. */
  function IconPad(iconR: real): real {
    Max(Mm(3.0), iconR * 1.5)
  }

  /** The icons placed in the box (x, y, w, h) less the padding for
      radius `iconR`, a span of at least 1pt each way. */
  function IconsIn(src: RandomSource.Source, seed: int, step: nat, x: real, y: real, w: real, h: real,
                   iconR: real, n: nat): seq<Icon> {
    var pad := IconPad(iconR);
    IconsFrom(src, seed, step, x + pad, y + pad, Span(w, pad), Span(h, pad), n)
  }

  /** `max(1.0, (x1 - x0))`: the length `len` less the padding at both
      ends, but at least 1pt. */
  function Span(len: real, pad: real): (span: real)
    ensures span > 0.0
    ensures len - 2.0 * pad >= 1.0 ==> span == len - 2.0 * pad
  {
    Max(1.0, len - 2.0 * pad)
  }

  /** `_draw_seek_objects`: two distinct targets by `sample`, then
      `max(1, icons_count)` icons, each placed in the maze box less a
      padding of `max(3 mm, 1.5 * icon_r)` (at least 1pt wide each way). */
  method DrawSeekObjects(rng: RandomSource.Rng, x: real, y: real, w: real, h: real,
                         iconsCount: int, iconR: real) returns (seek: Seek)
    modifies rng
    ensures |seek.targets| == 2 && seek.targets[0] != seek.targets[1]
    ensures seek.targets[0] in SHAPES && seek.targets[1] in SHAPES
    ensures seek.instruction == Instruction(seek.targets[0], seek.targets[1])
    ensures seek.icons == IconsIn(rng.src, rng.seed, old(rng.step) + 2, x, y, w, h, iconR, MaxInt(1, iconsCount))
    ensures rng.step == old(rng.step) + 2 + 3 * MaxInt(1, iconsCount)
  {
    assert SeqUtil.Distinct(SHAPES);
    var targets := rng.Sample(SHAPES, 2);
    assert targets[0] in multiset(SHAPES) && targets[1] in multiset(SHAPES);
    var pad := IconPad(iconR);
    var x0 := x + pad;
    var y0 := y + pad;
    var x1 := x + w - pad;
    var y1 := y + h - pad;
    assert x1 - x0 == w - 2.0 * pad && y1 - y0 == h - 2.0 * pad;
    var icons := PlaceIcons(rng, x0, y0, Span(w, pad), Span(h, pad), MaxInt(1, iconsCount));
    seek := Seek(targets, Instruction(targets[0], targets[1]), icons);
  }

  /** An icon has one of the three shapes and lies in the box
      (x0, y0) + [0, spanX) x [0, spanY). */
  lemma IconInBox(src: RandomSource.Source, seed: int, step: nat, x0: real, y0: real, spanX: real, spanY: real)
    requires spanX > 0.0 && spanY > 0.0
    ensures IconAt(src, seed, step, x0, y0, spanX, spanY).shape in SHAPES
    ensures x0 <= IconAt(src, seed, step, x0, y0, spanX, spanY).x < x0 + spanX
    ensures y0 <= IconAt(src, seed, step, x0, y0, spanX, spanY).y < y0 + spanY
  {
  }

  /** Every icon has one of the three shapes and lies in the padded box:
      at least `pad` from the left and bottom edges of the maze box, and
      (when the box is wider and taller than twice the padding plus 1pt)
      at least `pad` from its right and top edges. */
  lemma IconsInside(src: RandomSource.Source, seed: int, step: nat, x: real, y: real, w: real, h: real,
                    iconR: real, n: nat)
    ensures var icons := IconsIn(src, seed, step, x, y, w, h, iconR, n);
      var pad := IconPad(iconR);
      forall k :: 0 <= k < |icons| ==>
        icons[k].shape in SHAPES &&
        x + pad <= icons[k].x && y + pad <= icons[k].y &&
        (w - 2.0 * pad >= 1.0 ==> icons[k].x < x + w - pad) &&
        (h - 2.0 * pad >= 1.0 ==> icons[k].y < y + h - pad)
  {
    var icons := IconsIn(src, seed, step, x, y, w, h, iconR, n);
    var pad := IconPad(iconR);
    forall k | 0 <= k < |icons|
      ensures icons[k].shape in SHAPES
      ensures x + pad <= icons[k].x < x + pad + Span(w, pad)
      ensures y + pad <= icons[k].y < y + pad + Span(h, pad)
    {
      IconInBox(src, seed, step + 3 * k, x + pad, y + pad, Span(w, pad), Span(h, pad));
    }
  }

  // ---------------------------------------------------------------------
  // The page
  // ---------------------------------------------------------------------

  /** The seed of the seek generator. */
  const SEEK_SALT: int := 0x9E3779B9

  const NOTICE: string := "Aktivit\U{e4}t (zu wenig Platz)"

  /** What `render_activity_page` draws: only a notice when the free area
      is too small, else the title, the maze and the seek objects. */
  datatype ActivityPage =
    | Notice(x: real, y: real, text: string)
    | Activity(title: string, titleX: real, titleY: real, maze: Maze, seek: Seek)

  /** The area is too small below 30 mm across or 50 mm up. */
  predicate TooCramped(w: real, h: real) {
    w < Mm(30.0) || h < Mm(50.0)
  }

  /** Two distinct shapes. */
  predicate TwoTargets(targets: seq<string>) {
    |targets| == 2 && targets[0] != targets[1] && targets[0] in SHAPES && targets[1] in SHAPES
  }

  /** The maze height: the area's height less 28 mm, but never under
      30 mm. */
  function MazeHeight(h: real): real {
    Max(Mm(30.0), h - Mm(28.0))
  }

  /** In an area that is not too cramped, the maze box (the full width,
      12 mm above the bottom, `MazeHeight` tall) and the instruction line
      8 mm below it lie inside the area, with at least 8 mm left above the
      maze for its start and end labels. */
  lemma MazeBoxInside(y: real, h: real)
    requires h >= Mm(50.0)
    ensures y + Mm(12.0) - Mm(8.0) >= y
    ensures y + Mm(12.0) + MazeHeight(h) <= y + h - Mm(8.0)
    ensures MazeHeight(h) >= Mm(30.0)
  {
  }

  /** The free area's width: the page less both side margins. */
  function FreeW(pageW: real, marginLeft: real, marginRight: real): real {
    pageW - marginLeft - marginRight
  }

  /** The free area's height: the page less the reserved top and bottom. */
  function FreeH(pageH: real, topReserved: real, bottomReserved: real): real {
    pageH - topReserved - bottomReserved
  }

  /** The maze drawn in the free area (x, y, w, h) with layout `lay`: in
      the maze box (the full width, 12 mm above the bottom, `MazeHeight`
      tall), by a fresh `random.Random(seed)`, with the layout's grid, its
      density clamped to [0, 1] and its safe padding. */
  function PageMaze(src: RandomSource.Source, seed: int, x: real, y: real, w: real, h: real,
                    lay: ActivityLayout): Maze {
    MazeOf(src, seed, 0, x, y + Mm(12.0), w, MazeHeight(h), lay.mazeCellsX, lay.mazeCellsY,
           Clamp(lay.wallDensity, 0.0, 1.0), Mm(lay.safePadMm))
  }

  /** The icons placed in the same maze box by a fresh
      `random.Random(seed ^ 0x9E3779B9)`, after its two target draws. */
  function PageIcons(src: RandomSource.Source, seed: int, x: real, y: real, w: real, h: real,
                     lay: ActivityLayout): seq<Icon> {
    IconsIn(src, PyInt.Xor(seed, SEEK_SALT), 2, x, y + Mm(12.0), w, MazeHeight(h), Mm(lay.iconRMm),
            MaxInt(1, lay.iconsCount))
  }

  /** The maze part of `render_activity_page`. */
  method ActivityMaze(src: RandomSource.Source, seed: int, x: real, y: real, w: real, h: real,
                      lay: ActivityLayout) returns (maze: Maze)
    ensures maze == PageMaze(src, seed, x, y, w, h, lay)
  {
    var rng := new RandomSource.Rng(seed, src);
    maze := DrawMaze(rng, x, y + Mm(12.0), w, MazeHeight(h), lay.mazeCellsX, lay.mazeCellsY,
                     Clamp(lay.wallDensity, 0.0, 1.0), Mm(lay.safePadMm));
  }

  /** The seek part of `render_activity_page`. */
  method ActivitySeek(src: RandomSource.Source, seed: int, x: real, y: real, w: real, h: real,
                      lay: ActivityLayout) returns (seek: Seek)
    ensures TwoTargets(seek.targets) && seek.instruction == Instruction(seek.targets[0], seek.targets[1])
    ensures seek.icons == PageIcons(src, seed, x, y, w, h, lay)
  {
    var rng := new RandomSource.Rng(PyInt.Xor(seed, SEEK_SALT), src);
    seek := DrawSeekObjects(rng, x, y + Mm(12.0), w, MazeHeight(h), lay.iconsCount, Mm(lay.iconRMm));
  }

  /** `render_activity_page`: `layout or ActivityLayout()`, then only the
      notice when the free area is too cramped, else the title, the maze
      and the seek objects, each from its own generator. */
  method RenderActivityPage(src: RandomSource.Source, pageW: real, pageH: real, seed: int,
                            marginLeft: real, marginRight: real, topReserved: real, bottomReserved: real,
                            layout: Option<ActivityLayout>) returns (page: ActivityPage)
    ensures var h := FreeH(pageH, topReserved, bottomReserved);
      TooCramped(FreeW(pageW, marginLeft, marginRight), h) ==>
        page == Notice(marginLeft, bottomReserved + Max(0.0, h - 20.0), NOTICE)
    ensures !TooCramped(FreeW(pageW, marginLeft, marginRight), FreeH(pageH, topReserved, bottomReserved)) ==>
      var lay := layout.GetOr(DEFAULT_LAYOUT);
      page.Activity? && page.title == lay.title && page.titleX == marginLeft &&
      page.titleY == pageH - topReserved - Mm(lay.titleGapMm)
    ensures page.Activity? ==>
      page.maze == PageMaze(src, seed, marginLeft, bottomReserved, FreeW(pageW, marginLeft, marginRight),
                            FreeH(pageH, topReserved, bottomReserved), layout.GetOr(DEFAULT_LAYOUT))
    ensures page.Activity? ==>
      TwoTargets(page.seek.targets) && page.seek.instruction == Instruction(page.seek.targets[0], page.seek.targets[1])
    ensures page.Activity? ==>
      page.seek.icons == PageIcons(src, seed, marginLeft, bottomReserved, FreeW(pageW, marginLeft, marginRight),
                                   FreeH(pageH, topReserved, bottomReserved), layout.GetOr(DEFAULT_LAYOUT))
  {
    var lay := layout.GetOr(DEFAULT_LAYOUT);
    var x := marginLeft;
    var y := bottomReserved;
    var w := FreeW(pageW, marginLeft, marginRight);
    var h := FreeH(pageH, topReserved, bottomReserved);
    if w < Mm(30.0) || h < Mm(50.0) {
      return Notice(x, y + Max(0.0, h - 20.0), NOTICE);
    }
    var maze := ActivityMaze(src, seed, x, y, w, h, lay);
    var seek := ActivitySeek(src, seed, x, y, w, h, lay);
    page := Activity(lay.title, x, pageH - topReserved - Mm(lay.titleGapMm), maze, seek);
  }
}
