/** The card grid of kern/exports/trainer_cards.py: the card size the
    policy leaves on the page, `card_xy`, and the batches of `cols * rows`
    cards the export loop takes from the vocabulary. Lengths are in
    PostScript points, as reals. */
module CardsGrid {
  import opened Arith

  /** Points per millimetre. */
  const MM: real := 72.0 / 25.4

  /** The grid part of `CARDS_POLICY` (possibly overridden by `policy`). */
  datatype CardsPolicy = CardsPolicy(cols: int, rows: int, outerMarginMm: real, gapMm: real)

  const CARDS_POLICY: CardsPolicy := CardsPolicy(2, 3, 12.0, 6.0)

  /** A column count the grid can divide by. */
  type NonZero = n: int | n != 0 witness 1

  /** Page size, margin, gap, column count and card size. */
  datatype Grid = Grid(pageW: real, pageH: real, outer: real, gap: real, cols: NonZero, cardW: real, cardH: real)

  /** The card size: the page less its margins and gaps, shared out
      evenly. */
  function GridOf(pol: CardsPolicy, pageW: real, pageH: real): (g: Grid)
    requires pol.cols != 0 && pol.rows != 0
  {
    var outer := pol.outerMarginMm * MM;
    var gap := pol.gapMm * MM;
    var usableW := pageW - 2.0 * outer;
    var usableH := pageH - 2.0 * outer;
    Grid(pageW, pageH, outer, gap, pol.cols,
         (usableW - (pol.cols - 1) as real * gap) / pol.cols as real,
         (usableH - (pol.rows - 1) as real * gap) / pol.rows as real)
  }

  /** The grid keeps the page size and column count, takes margin and gap
      from the policy in millimetres, and its columns (rows) of cards and
      the gaps between them fill the page inside the outer margins
      exactly. */
  lemma GridFillsPage(pol: CardsPolicy, pageW: real, pageH: real)
    requires pol.cols != 0 && pol.rows != 0
    ensures var g := GridOf(pol, pageW, pageH);
      g.pageW == pageW && g.pageH == pageH && g.cols == pol.cols &&
      g.outer == pol.outerMarginMm * MM && g.gap == pol.gapMm * MM &&
      pol.cols as real * g.cardW + (pol.cols - 1) as real * g.gap == pageW - 2.0 * g.outer &&
      pol.rows as real * g.cardH + (pol.rows - 1) as real * g.gap == pageH - 2.0 * g.outer
  {
  }

  /** The left edge of the cards in column c. */
  function ColumnX(g: Grid, c: int): real {
    g.outer + c as real * (g.cardW + g.gap)
  }

  /** The lower edge of the cards in row r (rows count from the top). */
  function RowY(g: Grid, r: int): real {
    g.pageH - g.outer - (r + 1) as real * g.cardH - r as real * g.gap
  }

  /** `card_xy(i)`: the lower left corner of the i-th card of a page, in
      column `i % cols` of row `i // cols`. */
  function CardXY(g: Grid, i: int): (real, real) {
    (ColumnX(g, FloorMod(i, g.cols)), RowY(g, FloorDiv(i, g.cols)))
  }

  /** Cards are placed row by row: slot `r * cols + c` is column c of row
      r. */
  lemma CardXYRowMajor(g: Grid, r: int, c: int)
    requires 0 <= c < g.cols
    ensures CardXY(g, r * g.cols + c) == (ColumnX(g, c), RowY(g, r))
  {
    var a := r * g.cols + c;
    ModUnique(a, g.cols, r, c);
    assert FloorDiv(a, g.cols) == r;
    assert FloorMod(a, g.cols) == c;
  }

  /** Two different slots of a page are at least a gap apart, across or
      down. */
  lemma CardsApart(g: Grid, i: int, j: int)
    requires g.cols > 0 && 0 <= i < j
    requires g.cardW >= 0.0 && g.cardH >= 0.0 && g.gap >= 0.0
    ensures var (xi, yi), (xj, yj) := CardXY(g, i), CardXY(g, j);
      xi + g.cardW + g.gap <= xj || xj + g.cardW + g.gap <= xi || yj + g.cardH + g.gap <= yi
  {
    var ri, ci := i / g.cols, i % g.cols;
    var rj, cj := j / g.cols, j % g.cols;
    assert FloorDiv(i, g.cols) == ri && FloorMod(i, g.cols) == ci;
    assert FloorDiv(j, g.cols) == rj && FloorMod(j, g.cols) == cj;
    SlotOrder(i, j, g.cols);
    if ri == rj {
      if ci < cj {
        ColumnsApart(g, ci, cj);
      } else {
        ColumnsApart(g, cj, ci);
      }
    } else {
      RowsApart(g, ri, rj);
    }
  }

  /** A later slot is in a later row, or in a later column of the same
      row. */
  lemma SlotOrder(i: int, j: int, n: int)
    requires n > 0 && 0 <= i < j
    ensures i / n < j / n || (i / n == j / n && i % n < j % n)
  {
    var ri, ci, rj, cj := i / n, i % n, j / n, j % n;
    if rj < ri {
      MulAtLeast(ri - rj, n);
    } else if rj == ri {
      assert i - j == ci - cj;
    }
  }

  lemma ColumnsApart(g: Grid, a: int, b: int)
    requires a < b && g.cardW + g.gap >= 0.0
    ensures ColumnX(g, a) + g.cardW + g.gap <= ColumnX(g, b)
  {
    var d := g.cardW + g.gap;
    ScaleStep(b - a, d);
    assert b as real * d == a as real * d + (b - a) as real * d;
  }

  lemma RowsApart(g: Grid, a: int, b: int)
    requires a < b && g.cardH + g.gap >= 0.0
    ensures RowY(g, b) + g.cardH + g.gap <= RowY(g, a)
  {
    var e := g.cardH + g.gap;
    ScaleStep(b - a, e);
    assert (b + 1) as real * g.cardH + b as real * g.gap == b as real * e + g.cardH;
    assert (a + 1) as real * g.cardH + a as real * g.gap == a as real * e + g.cardH;
    assert b as real * e == a as real * e + (b - a) as real * e;
  }

  /** k >= 1 steps of a non-negative length d cover at least d. */
  lemma ScaleStep(k: int, d: real)
    requires k >= 1 && d >= 0.0
    ensures k as real * d >= d
  {
    assert k as real * d == d + (k - 1) as real * d;
  }

  /** With non-negative card sizes and gap, every slot of a full page lies
      inside the page margins. */
  lemma CardsInsideMargins(pol: CardsPolicy, pageW: real, pageH: real, i: int)
    requires pol.cols > 0 && pol.rows > 0 && 0 <= i < pol.cols * pol.rows
    requires var g := GridOf(pol, pageW, pageH); g.cardW >= 0.0 && g.cardH >= 0.0 && g.gap >= 0.0
    ensures var g := GridOf(pol, pageW, pageH);
      var (x, y) := CardXY(g, i);
      g.outer <= x && x + g.cardW <= pageW - g.outer &&
      g.outer <= y && y + g.cardH <= pageH - g.outer
  {
    GridFillsPage(pol, pageW, pageH);
    SlotInside(GridOf(pol, pageW, pageH), pol.rows, i);
  }

  /** Slot i of a grid whose `rows` rows and columns fill the page inside
      its margins lies inside them. */
  lemma SlotInside(g: Grid, rows: int, i: int)
    requires g.cols > 0 && rows > 0 && 0 <= i < g.cols * rows
    requires g.cardW >= 0.0 && g.cardH >= 0.0 && g.gap >= 0.0
    requires g.cols as real * g.cardW + (g.cols - 1) as real * g.gap == g.pageW - 2.0 * g.outer
    requires rows as real * g.cardH + (rows - 1) as real * g.gap == g.pageH - 2.0 * g.outer
    ensures var (x, y) := CardXY(g, i);
      g.outer <= x && x + g.cardW <= g.pageW - g.outer &&
      g.outer <= y && y + g.cardH <= g.pageH - g.outer
  {
    var r, c := RowOfSlot(i, g.cols, rows);
    assert CardXY(g, i) == (ColumnX(g, c), RowY(g, r));
    ColumnInside(g, g.cols, c);
    RowInside(g, rows, r);
  }

  /** Slot i of a page of `rows` rows of n columns is in column `i % n`
      of row `i // n`, both inside the page. */
  lemma RowOfSlot(i: int, n: int, rows: int) returns (r: int, c: int)
    requires n > 0 && 0 <= i < n * rows
    ensures r == FloorDiv(i, n) && c == FloorMod(i, n)
    ensures 0 <= r < rows && 0 <= c < n
  {
    r, c := i / n, i % n;
    assert FloorDiv(i, n) == r && FloorMod(i, n) == c;
    if r >= rows {
      MulMonotone(rows, r, n);
    }
  }

  lemma MulMonotone(a: int, b: int, n: int)
    requires a <= b && n >= 0
    ensures a * n <= b * n
  {
    assert b * n - a * n == (b - a) * n;
  }

  lemma ColumnInside(g: Grid, cols: int, c: int)
    requires 0 <= c < cols && g.cardW >= 0.0 && g.gap >= 0.0
    requires cols as real * g.cardW + (cols - 1) as real * g.gap == g.pageW - 2.0 * g.outer
    ensures g.outer <= ColumnX(g, c) && ColumnX(g, c) + g.cardW <= g.pageW - g.outer
  {
    var d := g.cardW + g.gap;
    NonNegProduct(c, d);
    NonNegProduct(cols - 1 - c, d);
    assert cols as real * g.cardW + (cols - 1) as real * g.gap == (cols - 1) as real * d + g.cardW;
    assert (cols - 1) as real * d == c as real * d + (cols - 1 - c) as real * d;
  }

  lemma RowInside(g: Grid, rows: int, r: int)
    requires 0 <= r < rows && g.cardH >= 0.0 && g.gap >= 0.0
    requires rows as real * g.cardH + (rows - 1) as real * g.gap == g.pageH - 2.0 * g.outer
    ensures g.outer <= RowY(g, r) && RowY(g, r) + g.cardH <= g.pageH - g.outer
  {
    var e := g.cardH + g.gap;
    NonNegProduct(r, e);
    NonNegProduct(rows - 1 - r, e);
    assert rows as real * g.cardH + (rows - 1) as real * g.gap == (rows - 1) as real * e + g.cardH;
    assert (r + 1) as real * g.cardH + r as real * g.gap == r as real * e + g.cardH;
    assert (rows - 1) as real * e == r as real * e + (rows - 1 - r) as real * e;
  }

  lemma NonNegProduct(k: int, d: real)
    requires k >= 0 && d >= 0.0
    ensures k as real * d >= 0.0
  {
  }

  /** The shipped policy on the A4 page leaves room for every card. */
  lemma DefaultGridFits()
    ensures var g := GridOf(CARDS_POLICY, 8.27 * 72.0, 11.69 * 72.0);
      g.cardW > 0.0 && g.cardH > 0.0 && g.gap > 0.0 && g.outer > 0.0
  {
  }

  /** The consecutive slices `vocab[start:start + per]` for start = 0, per,
      2 * per, ... below `len(vocab)`. */
  function Batches<T>(xs: seq<T>, per: nat): seq<seq<T>>
    requires per > 0
    decreases |xs|
  {
    if xs == [] then []
    else
      var m := if per <= |xs| then per else |xs|;
      [xs[..m]] + Batches(xs[m..], per)
  }

  function Concat<T>(xss: seq<seq<T>>): seq<T> {
    if xss == [] then [] else xss[0] + Concat(xss[1..])
  }

  /** The batches hold the vocabulary, in order, each entry once. */
  lemma {:induction false} BatchesConcat<T>(xs: seq<T>, per: nat)
    requires per > 0
    ensures Concat(Batches(xs, per)) == xs
    decreases |xs|
  {
    if xs != [] {
      var m := if per <= |xs| then per else |xs|;
      BatchesConcat(xs[m..], per);
      assert xs == xs[..m] + xs[m..];
    }
  }

  /** Dropping one divisor's worth lowers the quotient by one and keeps
      the remainder. */
  lemma DivStep(a: int, n: int)
    requires n > 0 && a >= n
    ensures (a - n) / n + 1 == a / n && (a - n) % n == a % n
  {
    var q, r := (a - n) / n, (a - n) % n;
    assert a == (q + 1) * n + r;
    ModUnique(a, n, q + 1, r);
  }

  /** There are `ceil(len / per)` batches. */
  lemma {:induction false} BatchCount<T>(xs: seq<T>, per: nat)
    requires per > 0
    ensures |Batches(xs, per)| == (|xs| + per - 1) / per
    decreases |xs|
  {
    if xs == [] {
      ModUnique(per - 1, per, 0, per - 1);
    } else if per <= |xs| {
      assert |Batches(xs, per)| == 1 + |Batches(xs[per..], per)|;
      BatchCount(xs[per..], per);
      assert |xs[per..]| + per - 1 == |xs| + per - 1 - per;
      DivStep(|xs| + per - 1, per);
    } else {
      assert xs[|xs|..] == [];
      assert |Batches(xs, per)| == 1;
      ModUnique(|xs| + per - 1, per, 1, |xs| - 1);
    }
  }

  /** Every batch holds 1 to `per` entries, all but the last exactly `per`. */
  lemma {:induction false} BatchSizes<T>(xs: seq<T>, per: nat)
    requires per > 0
    ensures forall b :: 0 <= b < |Batches(xs, per)| ==> 1 <= |Batches(xs, per)[b]| <= per
    ensures forall b :: 0 <= b < |Batches(xs, per)| - 1 ==> |Batches(xs, per)[b]| == per
    decreases |xs|
  {
    if xs != [] {
      var m := if per <= |xs| then per else |xs|;
      BatchSizes(xs[m..], per);
      var bs, rest := Batches(xs, per), Batches(xs[m..], per);
      assert bs == [xs[..m]] + rest;
      if m < per {
        assert xs[m..] == [];
        assert rest == [];
      }
      forall b | 0 <= b < |bs|
        ensures 1 <= |bs[b]| <= per && (b < |bs| - 1 ==> |bs[b]| == per)
      {
        if b > 0 {
          assert bs[b] == rest[b - 1];
        }
      }
    }
  }

  /** Entry i is slot `i % per` of batch `i // per`. */
  lemma {:induction false} BatchSlot<T>(xs: seq<T>, per: nat, i: nat)
    requires per > 0 && i < |xs|
    ensures var bs := Batches(xs, per);
      i / per < |bs| && i % per < |bs[i / per]| && bs[i / per][i % per] == xs[i]
    decreases |xs|
  {
    var bs := Batches(xs, per);
    if i < per {
      ModUnique(i, per, 0, i);
      var m := if per <= |xs| then per else |xs|;
      assert bs[0] == xs[..m];
    } else {
      var rest := Batches(xs[per..], per);
      assert bs == [xs[..per]] + rest;
      BatchSlot(xs[per..], per, i - per);
      DivStep(i, per);
      assert bs[i / per] == rest[(i - per) / per];
    }
  }
}
