/**
 * Grid sizing and tiling of ImageProcessor (image_processor.py): the table
 * of base grids, `calculate_grid` with its aspect-ratio adjustment and
 * correction loop, and the crop rectangles `split_image` cuts.
 *
 * The source compares floating-point ratios; here they are exact rationals
 * written by cross-multiplication (w/h > 1.5 is 2w > 3h, w/h < 0.67 is
 * 100w < 67h). The two agree except on inputs within float rounding of a
 * threshold.
 */
module Grid {
  import opened Wrappers
  import Text
  import opened Storage

  /** PIECE_GRIDS: the recommended (rows, cols) per supported piece count. */
  const PieceGrids: map<int, (nat, nat)> :=
    map[100 := (10, 10), 300 := (15, 20), 500 := (20, 25), 1000 := (25, 40), 2000 := (40, 50)]

  /** Every table entry tiles its piece count exactly, with at least 10 slices per side. */
  lemma PieceGridsExact(n: int)
    requires n in PieceGrids
    ensures PieceGrids[n].0 * PieceGrids[n].1 == n
    ensures n >= 100 && 10 <= PieceGrids[n].0 <= 40 && 10 <= PieceGrids[n].1 <= 50
  {
  }

  /** aspect_ratio > 1.5 */
  predicate IsWide(w: nat, h: nat)
  {
    2 * w > 3 * h
  }

  /** aspect_ratio < 0.67 */
  predicate IsTall(w: nat, h: nat)
  {
    100 * w < 67 * h
  }

  /** int(base * min((w / h) / 1.2, 1.5)): the first column count tried for a wide image. */
  function WideStart(base: nat, w: nat, h: nat): int
    requires h > 0
  {
    if 5 * w >= 9 * h then 3 * base / 2 else 5 * base * w / (6 * h)
  }

  /** int(base * min(1.2 / (w / h), 1.5)): the first row count tried for a tall image. */
  function TallStart(base: nat, w: nat, h: nat): int
    requires w > 0
  {
    if 4 * h >= 5 * w then 3 * base / 2 else 6 * base * h / (5 * w)
  }

  /**
   * For a wide image the adjustment factor lies in (1.25, 1.5], so the first
   * column count tried is at least the base and at most 1.5 times it.
   */
  lemma WideStartBounds(base: nat, w: nat, h: nat)
    requires h > 0 && IsWide(w, h)
    ensures base <= WideStart(base, w, h) <= 3 * base / 2
  {
    if 5 * w < 9 * h {
      WideStartAtLeast(base, w, h);
      WideStartAtMost(base, w, h);
    }
  }

  lemma WideStartAtLeast(base: nat, w: nat, h: nat)
    requires h > 0 && IsWide(w, h) && 5 * w < 9 * h
    ensures base <= 5 * base * w / (6 * h)
  {
    MulMono(base, 6 * h, 5 * w);
    DivAtLeast(5 * base * w, 6 * h, base);
  }

  lemma WideStartAtMost(base: nat, w: nat, h: nat)
    requires h > 0 && 5 * w < 9 * h
    ensures 5 * base * w / (6 * h) <= 3 * base / 2
  {
    var q := 3 * base / 2;
    MulMono(base, 5 * w, 9 * h);
    MulMono(3 * h, 3 * base, 2 * q + 1);
    DivAtMost(5 * base * w, 6 * h, q);
  }

  lemma MulMono(d: nat, x: nat, y: nat)
    requires x <= y
    ensures d * x <= d * y
  {
    assert d * y == d * x + d * (y - x);
  }

  lemma DivAtLeast(a: nat, d: nat, q: nat)
    requires d > 0 && d * q <= a
    ensures q <= a / d
  {
    var k := a / d;
    if q > k {
      MulMono(d, k + 1, q);
      assert false;
    }
  }

  lemma DivAtMost(a: nat, d: nat, q: nat)
    requires d > 0 && a < d * (q + 1)
    ensures a / d <= q
  {
    var k := a / d;
    if k > q {
      MulMono(d, q + 1, k);
      assert false;
    }
  }

  /** A divisor and its cofactor multiply back to the number. */
  lemma CofactorExact(n: nat, c: nat)
    requires 0 < c && n % c == 0
    ensures (n / c) * c == n && c * (n / c) == n
  {
  }

  /**
   * For a tall image the factor min(1.2 / ratio, 1.5) is always capped:
   * ratio < 0.67 makes 1.2 / ratio exceed 1.79. The uncapped branch is dead,
   * and the first row count tried is always int(1.5 * base).
   */
  lemma TallAlwaysCapped(base: nat, w: nat, h: nat)
    requires w > 0 && IsTall(w, h)
    ensures TallStart(base, w, h) == 3 * base / 2
  {
  }

  /**
   * The correction loop run from `x`: the least `y >= x` at which
   * `(n // y) * y < n` stops holding, i.e. the least divisor of `n` from `x` on.
   */
  function Correct(n: nat, x: nat): (y: nat)
    requires 0 < x <= n
    ensures x <= y <= n && n % y == 0
    ensures forall z :: x <= z < y ==> n % z != 0
    decreases n - x
  {
    if (n / x) * x >= n then x else Correct(n, x + 1)
  }

  /** Where the correction loop ends from `start`: the divisor reached and its cofactor. */
  function Corrected(n: nat, start: int): (p: (nat, nat))
    requires 0 < start <= n
    ensures p.0 == Correct(n, start) && p.1 * p.0 == n
  {
    var x := Correct(n, start);
    CofactorExact(n, x);
    (x, n / x)
  }

  /** calculate_grid as a function of its inputs. */
  function GridFor(n: int, w: nat, h: nat): (r: Result<(nat, nat), Error>)
    requires w > 0 && h > 0
  {
    if n !in PieceGrids then Err(ValueError("Unsupported piece count: " + Text.IntToString(n)))
    else
      var (baseRows, baseCols) := PieceGrids[n];
      PieceGridsExact(n);
      if IsWide(w, h) then
        WideStartBounds(baseCols, w, h);
        var (cols, rows) := Corrected(n, WideStart(baseCols, w, h));
        Ok((rows, cols))
      else if IsTall(w, h) then
        TallAlwaysCapped(baseRows, w, h);
        Ok(Corrected(n, TallStart(baseRows, w, h)))
      else Ok((baseRows, baseCols))
  }

  /**
   * What calculate_grid promises: it fails exactly for the counts missing
   * from the table, and every grid it returns has exactly `n` cells.
   */
  lemma GridExact(n: int, w: nat, h: nat)
    requires w > 0 && h > 0
    ensures GridFor(n, w, h).Err? <==> n !in PieceGrids
    ensures GridFor(n, w, h).Ok? ==> GridFor(n, w, h).value.0 * GridFor(n, w, h).value.1 == n
  {
    if n in PieceGrids {
      PieceGridsExact(n);
    }
  }

  /** Between the two thresholds the table entry is used unchanged. */
  lemma GridUnadjusted(n: int, w: nat, h: nat)
    requires w > 0 && h > 0 && n in PieceGrids
    requires !IsWide(w, h) && !IsTall(w, h)
    ensures GridFor(n, w, h) == Ok(PieceGrids[n])
  {
  }

  /**
   * Wide images: the column count starts at int(baseCols * factor) with the
   * factor at most 1.5, never decreases, and ends on the least divisor of
   * `n` from there; the rows are the cofactor.
   */
  lemma GridWide(n: int, w: nat, h: nat)
    requires w > 0 && h > 0 && n in PieceGrids && IsWide(w, h)
    ensures var (rows, cols) := GridFor(n, w, h).value;
      var start := WideStart(PieceGrids[n].1, w, h);
      && PieceGrids[n].1 <= start <= 3 * PieceGrids[n].1 / 2
      && start <= cols && n % cols == 0 && rows * cols == n
      && forall z :: start <= z < cols ==> n % z != 0
  {
    PieceGridsExact(n);
    WideStartBounds(PieceGrids[n].1, w, h);
  }

  /** Tall images: the same on rows, starting from int(1.5 * baseRows). */
  lemma GridTall(n: int, w: nat, h: nat)
    requires w > 0 && h > 0 && n in PieceGrids && IsTall(w, h)
    ensures var (rows, cols) := GridFor(n, w, h).value;
      var start := 3 * PieceGrids[n].0 / 2;
      && start <= rows && n % rows == 0 && rows * cols == n
      && forall z :: start <= z < rows ==> n % z != 0
  {
    PieceGridsExact(n);
    TallAlwaysCapped(PieceGrids[n].0, w, h);
  }

  /** 6000 x 2000 with 500 pieces: 37 columns to start, corrected to 10 x 50. */
  lemma GridGoldenWide()
    ensures GridFor(500, 6000, 2000) == Ok((10, 50))
  {
    assert WideStart(25, 6000, 2000) == 37;
    var c := Correct(500, 37);
    assert 500 % 50 == 0;
  }

  /** 4000 x 3000 with 300 pieces keeps the base 15 x 20 grid. */
  lemma GridGoldenPlain()
    ensures GridFor(300, 4000, 3000) == Ok((15, 20))
  {
  }

  /**
   * The pixel range [lo, hi) split_image gives slice `i` of `count` along an
   * axis of `total` pixels: every slice is `total // count` wide except the
   * last, which runs to the edge.
   */
  function Span(i: nat, count: nat, total: nat): (int, int)
    requires i < count
  {
    var size := total / count;
    var lo := i * size;
    (lo, if i < count - 1 then lo + size else total)
  }

  /** The crop box `(left, top, right, bottom)` of cell (row, col). */
  function CellRect(row: nat, col: nat, rows: nat, cols: nat, w: nat, h: nat): Rect
    requires row < rows && col < cols
  {
    var (left, right) := Span(col, cols, w);
    var (top, bottom) := Span(row, rows, h);
    Rect(left, top, right, bottom)
  }

  /**
   * The slices along one axis tile it: the first starts at 0, each ends
   * where the next starts, none is inverted, and the last ends at `total`,
   * absorbing the remainder `total % count`.
   */
  lemma SpansTile(count: nat, total: nat)
    requires count > 0
    ensures Span(0, count, total).0 == 0
    ensures Span(count - 1, count, total).1 == total
    ensures Span(count - 1, count, total).1 - Span(count - 1, count, total).0 == total / count + total % count
    ensures forall i :: 0 <= i < count - 1 ==> Span(i, count, total).1 == Span(i + 1, count, total).0
    ensures forall i :: 0 <= i < count ==> 0 <= Span(i, count, total).0 <= Span(i, count, total).1 <= total
  {
    LastSpan(count, total);
    forall i | 0 <= i < count
      ensures 0 <= Span(i, count, total).0 <= Span(i, count, total).1 <= total
    {
      SpanInside(i, count, total);
    }
  }

  /** The last slice starts at `(count - 1) * (total // count)` and takes the rest. */
  lemma LastSpan(count: nat, total: nat)
    requires count > 0
    ensures Span(count - 1, count, total).1 - Span(count - 1, count, total).0 == total / count + total % count
  {
    var size := total / count;
    assert (count - 1) * size + size == count * size;
  }

  /**
   * A slice is empty exactly when the axis has no pixels, or when it has
   * fewer pixels than slices (so `total // count` is 0) and the slice is
   * not the last, which takes the whole remainder.
   */
  lemma SpanEmptyIff(i: nat, count: nat, total: nat)
    requires i < count
    ensures Span(i, count, total).0 <= Span(i, count, total).1
    ensures Span(i, count, total).0 == Span(i, count, total).1 <==> (i < count - 1 && total < count) || total == 0
  {
    SpanInside(i, count, total);
    var size := total / count;
    if total < count {
      DivAtMost(total, count, 0);
    } else {
      DivAtLeast(total, count, 1);
      if i == count - 1 {
        LastSpan(count, total);
      }
    }
  }

  /** Every slice lies within the axis and is not inverted. */
  lemma SpanInside(i: nat, count: nat, total: nat)
    requires i < count
    ensures 0 <= Span(i, count, total).0 <= Span(i, count, total).1 <= total
  {
    var size := total / count;
    assert count * size <= total;
    MulMono(size, i, count - 1);
    assert (count - 1) * size + size == count * size;
    if i < count - 1 {
      MulMono(size, i + 1, count - 1);
      assert (i + 1) * size == i * size + size;
    }
  }

  /** Sum of the widths `right - left` of the first `k` cells of row `row`. */
  function RowWidth(row: nat, k: nat, rows: nat, cols: nat, w: nat, h: nat): int
    requires row < rows && k <= cols
  {
    if k == 0 then 0
    else
      var r := CellRect(row, k - 1, rows, cols, w, h);
      RowWidth(row, k - 1, rows, cols, w, h) + (r.right - r.left)
  }

  /** Sum of the heights `bottom - top` of the first `k` cells of column `col`. */
  function ColumnHeight(col: nat, k: nat, rows: nat, cols: nat, w: nat, h: nat): int
    requires col < cols && k <= rows
  {
    if k == 0 then 0
    else
      var r := CellRect(k - 1, col, rows, cols, w, h);
      ColumnHeight(col, k - 1, rows, cols, w, h) + (r.bottom - r.top)
  }

  lemma {:induction false} RowWidthReaches(row: nat, k: nat, rows: nat, cols: nat, w: nat, h: nat)
    requires row < rows && 0 < k <= cols
    ensures RowWidth(row, k, rows, cols, w, h) == Span(k - 1, cols, w).1
  {
    SpansTile(cols, w);
    if k > 1 {
      RowWidthReaches(row, k - 1, rows, cols, w, h);
    }
  }

  lemma {:induction false} ColumnHeightReaches(col: nat, k: nat, rows: nat, cols: nat, w: nat, h: nat)
    requires col < cols && 0 < k <= rows
    ensures ColumnHeight(col, k, rows, cols, w, h) == Span(k - 1, rows, h).1
  {
    SpansTile(rows, h);
    if k > 1 {
      ColumnHeightReaches(col, k - 1, rows, cols, w, h);
    }
  }

  /**
   * No pixel is lost to rounding: the widths across any row add up to the
   * image width and the heights down any column to the image height.
   */
  lemma PiecesCoverImage(rows: nat, cols: nat, w: nat, h: nat)
    requires rows > 0 && cols > 0
    ensures forall row :: 0 <= row < rows ==> RowWidth(row, cols, rows, cols, w, h) == w
    ensures forall col :: 0 <= col < cols ==> ColumnHeight(col, rows, rows, cols, w, h) == h
  {
    SpansTile(cols, w);
    SpansTile(rows, h);
    forall row | 0 <= row < rows ensures RowWidth(row, cols, rows, cols, w, h) == w {
      RowWidthReaches(row, cols, rows, cols, w, h);
    }
    forall col | 0 <= col < cols ensures ColumnHeight(col, rows, rows, cols, w, h) == h {
      ColumnHeightReaches(col, rows, rows, cols, w, h);
    }
  }

  /** 4000 x 3000 cut 15 x 20: 200 x 200 pieces, the corner one included. */
  lemma TilingGolden()
    ensures CellRect(0, 0, 15, 20, 4000, 3000) == Rect(0, 0, 200, 200)
    ensures CellRect(14, 19, 15, 20, 4000, 3000) == Rect(3800, 2800, 4000, 3000)
  {
  }

  /**
   * The correction loop of calculate_grid: starting from `x = start` and
   * `other = n // x`, step `x` up and recompute `other` while
   * `other * x < n`. The loop ends on the least divisor of `n` from `start`.
   */
  method CorrectionLoop(n: nat, start: nat) returns (x: nat, other: nat)
    requires 0 < start <= n
    ensures (x, other) == Corrected(n, start)
    ensures other * x == n
  {
    x := start;
    other := n / x;
    while other * x < n
      invariant start <= x <= n
      invariant other == n / x
      invariant Correct(n, x) == Correct(n, start)
      decreases n - x
    {
      x := x + 1;
      other := n / x;
    }
    CofactorExact(n, x);
  }

  /** calculate_grid. */
  method CalculateGrid(pieceCount: int, imageWidth: nat, imageHeight: nat) returns (r: Result<(nat, nat), Error>)
    requires imageWidth > 0 && imageHeight > 0
    ensures r == GridFor(pieceCount, imageWidth, imageHeight)
    ensures r.Ok? <==> pieceCount in PieceGrids
    ensures r.Ok? ==> r.value.0 * r.value.1 == pieceCount
  {
    if pieceCount !in PieceGrids {
      return Err(ValueError("Unsupported piece count: " + Text.IntToString(pieceCount)));
    }
    var baseRows, baseCols := PieceGrids[pieceCount].0, PieceGrids[pieceCount].1;
    PieceGridsExact(pieceCount);
    var rows, cols;
    if IsWide(imageWidth, imageHeight) {
      WideStartBounds(baseCols, imageWidth, imageHeight);
      cols, rows := CorrectionLoop(pieceCount, WideStart(baseCols, imageWidth, imageHeight));
      assert GridFor(pieceCount, imageWidth, imageHeight) == Ok((rows, cols));
    } else if IsTall(imageWidth, imageHeight) {
      TallAlwaysCapped(baseRows, imageWidth, imageHeight);
      rows, cols := CorrectionLoop(pieceCount, TallStart(baseRows, imageWidth, imageHeight));
      assert GridFor(pieceCount, imageWidth, imageHeight) == Ok((rows, cols));
    } else {
      rows, cols := baseRows, baseCols;
    }
    r := Ok((rows, cols));
    GridExact(pieceCount, imageWidth, imageHeight);
  }
}
