/** Histogram seeding and pixel extraction of the lane processor: the column histogram of the
    lower half of the binary mask, the two seed columns picked from it, and the list of all
    "on" pixels of the mask in row-major order. */
module LaneSeeding {
  import opened Wrappers

  /** One channel of the warped binary image: an 8-bit intensity. */
  type Intensity = v: int | 0 <= v < 256

  /** The mask: `rows[y][x]` is the intensity at column x of row y; every row has `width` pixels. */
  datatype Mask = Mask(width: nat, rows: seq<seq<Intensity>>) {
    predicate Valid() {
      forall y | 0 <= y < |rows| :: |rows[y]| == width
    }

    function Height(): nat { |rows| }
  }

  /** Parallel coordinate arrays: pixel k is at column `xs[k]`, row `ys[k]`. */
  datatype PixelList = PixelList(xs: seq<int>, ys: seq<int>) {
    predicate Valid() { |xs| == |ys| }
  }

  /** Sum of column c over all of `rows`. */
  function ColumnSum(rows: seq<seq<Intensity>>, c: nat): (total: nat)
    requires forall y | 0 <= y < |rows| :: c < |rows[y]|
    ensures total <= 255 * |rows|
    ensures forall y | 0 <= y < |rows| :: rows[y][c] <= total
  {
    if |rows| == 0 then 0 else ColumnSum(rows[..|rows| - 1], c) + rows[|rows| - 1][c]
  }

  /** A column sums to zero exactly when every pixel of the column is off. */
  lemma {:induction false} ColumnSumZero(rows: seq<seq<Intensity>>, c: nat)
    requires forall y | 0 <= y < |rows| :: c < |rows[y]|
    ensures ColumnSum(rows, c) == 0 <==> forall y | 0 <= y < |rows| :: rows[y][c] == 0
  {
    if |rows| > 0 {
      ColumnSumZero(rows[..|rows| - 1], c);
    }
  }

  /** The rows the histogram looks at: `H // 2 .. H - 1`. */
  function LowerHalf(m: Mask): (lower: seq<seq<Intensity>>)
    requires m.Valid()
    ensures |lower| == m.Height() - m.Height() / 2
    ensures forall y | 0 <= y < |lower| :: lower[y] == m.rows[m.Height() / 2 + y]
  {
    m.rows[m.Height() / 2..]
  }

  /** `np.sum(image[H // 2:, :], 0)`: column sums over the lower half of the mask. A column's
      entry is zero exactly when none of its lower-half pixels is on. */
  function HistogramOfLowerPart(m: Mask): (hist: seq<nat>)
    requires m.Valid()
    ensures |hist| == m.width
    ensures forall c | 0 <= c < m.width ::
              hist[c] == 0 <==> forall y | m.Height() / 2 <= y < m.Height() :: m.rows[y][c] == 0
  {
    var lower := LowerHalf(m);
    var hist := seq(m.width, c requires 0 <= c < m.width => ColumnSum(lower, c));
    forall c | 0 <= c < m.width
      ensures hist[c] == 0 <==> forall y | m.Height() / 2 <= y < m.Height() :: m.rows[y][c] == 0
    {
      ColumnSumZero(lower, c);
      if hist[c] != 0 {
        var y :| 0 <= y < |lower| && lower[y][c] != 0;
        assert m.rows[m.Height() / 2 + y][c] != 0;
      }
    }
    hist
  }

  /** `np.argmax`: the FIRST index at which `s` attains its maximum. */
  function Argmax(s: seq<int>): (k: nat)
    requires |s| > 0
    ensures k < |s|
    ensures forall j | 0 <= j < |s| :: s[j] <= s[k]
    ensures forall j | 0 <= j < k :: s[j] < s[k]
  {
    if |s| == 1 then 0
    else
      var k := Argmax(s[..|s| - 1]);
      assert forall j | 0 <= j < |s| - 1 :: s[..|s| - 1][j] == s[j];
      if s[|s| - 1] > s[k] then |s| - 1 else k
  }

  /** `_baseLeftX`: the first column of maximum histogram value in `[0, W // 2)`; the argmax of
      an empty slice raises, which is `None` here. */
  function BaseLeftX(hist: seq<nat>, width: nat): (seed: Option<nat>)
    requires |hist| == width
    ensures seed.None? <==> width / 2 == 0
    ensures seed.Some? ==> seed.value < width / 2
    ensures seed.Some? ==> forall c | 0 <= c < width / 2 :: hist[c] <= hist[seed.value]
    ensures seed.Some? ==> forall c | 0 <= c < seed.value :: hist[c] < hist[seed.value]
  {
    if width / 2 == 0 then None
    else
      var half := hist[..width / 2];
      var k := Argmax(half);
      assert forall c | 0 <= c < width / 2 :: half[c] == hist[c];
      Some(k)
  }

  /** `_baseRightX`: the first column of maximum histogram value in `[W // 2, W)`, shifted back
      into image coordinates; `None` when that half is empty. */
  function BaseRightX(hist: seq<nat>, width: nat): (seed: Option<nat>)
    requires |hist| == width
    ensures seed.None? <==> width == 0
    ensures seed.Some? ==> width / 2 <= seed.value < width
    ensures seed.Some? ==> forall c | width / 2 <= c < width :: hist[c] <= hist[seed.value]
    ensures seed.Some? ==> forall c | width / 2 <= c < seed.value :: hist[c] < hist[seed.value]
  {
    var middle := width / 2;
    if middle == width then None
    else
      var half := hist[middle..];
      var k := Argmax(half);
      assert forall c | middle <= c < width :: half[c - middle] == hist[c];
      Some(k + middle)
  }

  /** Seeding works on the mask: when some lower-half pixel of the left half is on, the left
      seed column has an "on" pixel in the lower half too. */
  lemma LeftSeedOnLane(m: Mask, x: nat, y: nat)
    requires m.Valid()
    requires x < m.width / 2 && m.Height() / 2 <= y < m.Height() && m.rows[y][x] != 0
    ensures var seed := BaseLeftX(HistogramOfLowerPart(m), m.width);
      seed.Some? && exists y' | m.Height() / 2 <= y' < m.Height() :: m.rows[y'][seed.value] != 0
  {
    var hist := HistogramOfLowerPart(m);
    var seed := BaseLeftX(hist, m.width);
    assert hist[x] != 0;
    assert hist[seed.value] != 0;
  }

  /** The same for the right half. */
  lemma RightSeedOnLane(m: Mask, x: nat, y: nat)
    requires m.Valid()
    requires m.width / 2 <= x < m.width && m.Height() / 2 <= y < m.Height() && m.rows[y][x] != 0
    ensures var seed := BaseRightX(HistogramOfLowerPart(m), m.width);
      seed.Some? && exists y' | m.Height() / 2 <= y' < m.Height() :: m.rows[y'][seed.value] != 0
  {
    var hist := HistogramOfLowerPart(m);
    var seed := BaseRightX(hist, m.width);
    assert hist[x] != 0;
    assert hist[seed.value] != 0;
  }

  /** Rows above the middle never influence the histogram, hence never the seeds. */
  lemma UpperHalfIrrelevant(m1: Mask, m2: Mask)
    requires m1.Valid() && m2.Valid()
    requires m1.width == m2.width && m1.Height() == m2.Height()
    requires forall y | m1.Height() / 2 <= y < m1.Height() :: m1.rows[y] == m2.rows[y]
    ensures HistogramOfLowerPart(m1) == HistogramOfLowerPart(m2)
    ensures BaseLeftX(HistogramOfLowerPart(m1), m1.width) == BaseLeftX(HistogramOfLowerPart(m2), m2.width)
    ensures BaseRightX(HistogramOfLowerPart(m1), m1.width) == BaseRightX(HistogramOfLowerPart(m2), m2.width)
  {
    assert LowerHalf(m1) == LowerHalf(m2);
  }

  /** Row-major order of pixel positions, as `np.nonzero` enumerates them. */
  predicate RowMajorBefore(y1: int, x1: int, y2: int, x2: int) {
    y1 < y2 || (y1 == y2 && x1 < x2)
  }

  /** The "on" pixels of row y among columns `0 .. c - 1`, left to right. */
  function NonZeroInRow(row: seq<Intensity>, y: int, c: nat): (p: PixelList)
    requires c <= |row|
    ensures p.Valid() && |p.xs| <= c
    ensures (forall x | 0 <= x < c :: row[x] == 0) ==> |p.xs| == 0
  {
    if c == 0 then PixelList([], [])
    else
      var p := NonZeroInRow(row, y, c - 1);
      if row[c - 1] != 0 then PixelList(p.xs + [c - 1], p.ys + [y]) else p
  }

  /** Every pixel one row contributes is an "on" pixel of that row. */
  lemma {:induction false} NonZeroInRowOn(row: seq<Intensity>, y: int, c: nat)
    requires c <= |row|
    ensures forall k | 0 <= k < |NonZeroInRow(row, y, c).xs| ::
      && NonZeroInRow(row, y, c).ys[k] == y
      && 0 <= NonZeroInRow(row, y, c).xs[k] < c
      && row[NonZeroInRow(row, y, c).xs[k]] != 0
  {
    if c > 0 {
      NonZeroInRowOn(row, y, c - 1);
    }
  }

  /** Every "on" pixel of the row is contributed. */
  lemma {:induction false} NonZeroInRowComplete(row: seq<Intensity>, y: int, c: nat, x: nat)
    requires x < c <= |row| && row[x] != 0
    ensures exists k | 0 <= k < |NonZeroInRow(row, y, c).xs| :: NonZeroInRow(row, y, c).xs[k] == x
  {
    var p := NonZeroInRow(row, y, c - 1);
    var q := NonZeroInRow(row, y, c);
    if x == c - 1 {
      assert q.xs[|p.xs|] == x;
    } else {
      NonZeroInRowComplete(row, y, c - 1, x);
      var k :| 0 <= k < |p.xs| && p.xs[k] == x;
      assert q.xs[k] == x;
    }
  }

  /** A row's pixels come left to right. */
  lemma {:induction false} NonZeroInRowSorted(row: seq<Intensity>, y: int, c: nat)
    requires c <= |row|
    ensures forall i, j | 0 <= i < j < |NonZeroInRow(row, y, c).xs| ::
      NonZeroInRow(row, y, c).xs[i] < NonZeroInRow(row, y, c).xs[j]
  {
    if c > 0 {
      NonZeroInRowSorted(row, y, c - 1);
      NonZeroInRowOn(row, y, c - 1);
    }
  }

  /** Every pixel of `p` is an "on" pixel of the mask in rows `0 .. r - 1`. */
  predicate AllOn(m: Mask, p: PixelList, r: nat)
    requires m.Valid() && p.Valid() && r <= m.Height()
  {
    forall k | 0 <= k < |p.xs| ::
      0 <= p.ys[k] < r && 0 <= p.xs[k] < m.width && m.rows[p.ys[k]][p.xs[k]] != 0
  }

  /** Every "on" pixel of the mask in rows `0 .. r - 1` occurs in `p`. */
  predicate Complete(m: Mask, p: PixelList, r: nat)
    requires m.Valid() && p.Valid() && r <= m.Height()
  {
    forall y, x | 0 <= y < r && 0 <= x < m.width && m.rows[y][x] != 0 ::
      exists k | 0 <= k < |p.xs| :: p.xs[k] == x && p.ys[k] == y
  }

  /** The pixels of `p` are in strictly increasing row-major order. */
  predicate RowMajor(p: PixelList)
    requires p.Valid()
  {
    forall i, j | 0 <= i < j < |p.xs| :: RowMajorBefore(p.ys[i], p.xs[i], p.ys[j], p.xs[j])
  }

  /** Appending the "on" pixels of row r to those of the rows above keeps every pixel "on". */
  lemma AppendRowOn(m: Mask, r: nat, p: PixelList, row: PixelList)
    requires m.Valid() && p.Valid() && r < m.Height() && AllOn(m, p, r)
    requires row == NonZeroInRow(m.rows[r], r, m.width)
    ensures AllOn(m, PixelList(p.xs + row.xs, p.ys + row.ys), r + 1)
  {
    var q := PixelList(p.xs + row.xs, p.ys + row.ys);
    NonZeroInRowOn(m.rows[r], r, m.width);
    forall k | 0 <= k < |q.xs|
      ensures 0 <= q.ys[k] < r + 1 && 0 <= q.xs[k] < m.width && m.rows[q.ys[k]][q.xs[k]] != 0
    {
      if k < |p.xs| {
        assert q.xs[k] == p.xs[k] && q.ys[k] == p.ys[k];
      } else {
        assert q.xs[k] == row.xs[k - |p.xs|] && q.ys[k] == row.ys[k - |p.xs|];
      }
    }
  }

  /** ... misses no "on" pixel of rows `0 .. r` ... */
  lemma AppendRowComplete(m: Mask, r: nat, p: PixelList, row: PixelList)
    requires m.Valid() && p.Valid() && r < m.Height() && Complete(m, p, r)
    requires row == NonZeroInRow(m.rows[r], r, m.width)
    ensures Complete(m, PixelList(p.xs + row.xs, p.ys + row.ys), r + 1)
  {
    var q := PixelList(p.xs + row.xs, p.ys + row.ys);
    NonZeroInRowOn(m.rows[r], r, m.width);
    forall y, x | 0 <= y < r + 1 && 0 <= x < m.width && m.rows[y][x] != 0
      ensures exists k | 0 <= k < |q.xs| :: q.xs[k] == x && q.ys[k] == y
    {
      if y < r {
        var k :| 0 <= k < |p.xs| && p.xs[k] == x && p.ys[k] == y;
        assert q.xs[k] == x && q.ys[k] == y;
      } else {
        NonZeroInRowComplete(m.rows[r], r, m.width, x);
        var k :| 0 <= k < |row.xs| && row.xs[k] == x;
        assert q.xs[|p.xs| + k] == x && q.ys[|p.xs| + k] == y;
      }
    }
  }

  /** ... and keeps row-major order. */
  lemma AppendRowSorted(m: Mask, r: nat, p: PixelList, row: PixelList)
    requires m.Valid() && p.Valid() && r < m.Height() && AllOn(m, p, r) && RowMajor(p)
    requires row == NonZeroInRow(m.rows[r], r, m.width)
    ensures RowMajor(PixelList(p.xs + row.xs, p.ys + row.ys))
  {
    var q := PixelList(p.xs + row.xs, p.ys + row.ys);
    NonZeroInRowOn(m.rows[r], r, m.width);
    NonZeroInRowSorted(m.rows[r], r, m.width);
    forall i, j | 0 <= i < j < |q.xs| ensures RowMajorBefore(q.ys[i], q.xs[i], q.ys[j], q.xs[j]) {
      if j < |p.xs| {
        assert q.ys[i] == p.ys[i] && q.xs[i] == p.xs[i] && q.ys[j] == p.ys[j] && q.xs[j] == p.xs[j];
      } else if i < |p.xs| {
        assert q.ys[i] == p.ys[i] < r && q.ys[j] == row.ys[j - |p.xs|] == r;
      } else {
        assert q.ys[i] == row.ys[i - |p.xs|] == r && q.ys[j] == row.ys[j - |p.xs|] == r;
        assert q.xs[i] == row.xs[i - |p.xs|] < q.xs[j] == row.xs[j - |p.xs|];
      }
    }
  }

  /** The "on" pixels of rows `0 .. r - 1`, in row-major order. */
  function NonZeroInRows(m: Mask, r: nat): (p: PixelList)
    requires m.Valid() && r <= m.Height()
    ensures p.Valid() && AllOn(m, p, r) && Complete(m, p, r) && RowMajor(p)
  {
    if r == 0 then PixelList([], [])
    else
      var p := NonZeroInRows(m, r - 1);
      var row := NonZeroInRow(m.rows[r - 1], r - 1, m.width);
      AppendRowOn(m, r - 1, p, row);
      AppendRowComplete(m, r - 1, p, row);
      AppendRowSorted(m, r - 1, p, row);
      PixelList(p.xs + row.xs, p.ys + row.ys)
  }

  /** `_nonZeroPixels`: every "on" pixel of the mask exactly once, in row-major order, split into
      x (column) and y (row) coordinates. */
  function NonZeroPixels(m: Mask): (p: PixelList)
    requires m.Valid()
    ensures p.Valid()
    ensures forall k | 0 <= k < |p.xs| ::
              0 <= p.ys[k] < m.Height() && 0 <= p.xs[k] < m.width && m.rows[p.ys[k]][p.xs[k]] != 0
    ensures forall y, x | 0 <= y < m.Height() && 0 <= x < m.width && m.rows[y][x] != 0 ::
              exists k | 0 <= k < |p.xs| :: p.xs[k] == x && p.ys[k] == y
    ensures forall i, j | 0 <= i < j < |p.xs| :: RowMajorBefore(p.ys[i], p.xs[i], p.ys[j], p.xs[j])
  {
    NonZeroInRows(m, m.Height())
  }
}
