/** The sliding-window search of the lane processor: nine bands of height `H // 9`, walked from
    the bottom of the mask upwards, each collecting the "on" pixels within 75 columns of a
    cursor that starts at the seed column and moves to the (truncated) mean column of a band
    that collected more than 50 pixels.

    `Search` is the specification (the state after each window), `FindLanePixelsOfOneLane` the
    loop proved against it, and the lemmas state what the collected pixels are. */
module SlidingWindow {
  import opened LaneSeeding

  /** The processor's fixed run parameters. */
  const NWindows: nat := 9
  const Margin: int := 75
  const MinNumberOfPixels: nat := 50

  /** `np.int(H / 9)`: the quotient is non-negative, so truncation is floor division. */
  function WindowHeight(height: nat): (wh: nat)
    ensures NWindows * wh <= height < NWindows * wh + NWindows
  {
    height / NWindows
  }

  /** A half-open search rectangle `[lowX, highX) x [lowY, highY)`. */
  datatype Box = Box(lowX: int, highX: int, lowY: int, highY: int)

  predicate InBox(b: Box, x: int, y: int) {
    b.lowY <= y < b.highY && b.lowX <= x < b.highX
  }

  /** The rectangle of window w (0 is the bottom one) around cursor `cur`. */
  function WindowBox(height: nat, w: nat, cur: int): (b: Box)
    ensures b.lowX + Margin == cur && b.highX - b.lowX == 2 * Margin
    ensures b.highY - b.lowY == WindowHeight(height)
  {
    var wh := WindowHeight(height);
    Box(cur - Margin, cur + Margin, height - (w + 1) * wh, height - w * wh)
  }

  /** Window w + 1 sits directly above window w, whatever the two cursors. */
  lemma BandsAdjacent(height: nat, w: nat, cur: int, next: int)
    ensures WindowBox(height, w + 1, next).highY == WindowBox(height, w, cur).lowY
    ensures WindowBox(height, w + 1, next).lowY <= WindowBox(height, w, cur).lowY
  {
  }

  /** The window a row belongs to, counted from the bottom (meaningful when `H // 9 > 0`). */
  function RowWindow(height: nat, y: int): int {
    var wh := WindowHeight(height);
    if wh == 0 then 0 else (height - 1 - y) / wh
  }

  /** Indices `i < n` of the pixels inside `b`, in increasing order: the `.nonzero()[0]` of the
      element-wise comparison in the source. */
  function Select(p: PixelList, b: Box, n: nat): (good: seq<nat>)
    requires p.Valid() && n <= |p.xs|
    ensures forall k | 0 <= k < |good| :: good[k] < n && InBox(b, p.xs[good[k]], p.ys[good[k]])
    ensures forall i | 0 <= i < n && InBox(b, p.xs[i], p.ys[i]) :: i in good
    ensures forall k, l | 0 <= k < l < |good| :: good[k] < good[l]
  {
    if n == 0 then []
    else
      var good := Select(p, b, n - 1);
      if InBox(b, p.xs[n - 1], p.ys[n - 1]) then good + [n - 1] else good
  }

  /** Sum of `xs` at the positions `idx`. */
  function SumAt(xs: seq<int>, idx: seq<nat>): int
    requires forall k | 0 <= k < |idx| :: idx[k] < |xs|
  {
    if |idx| == 0 then 0 else SumAt(xs, idx[..|idx| - 1]) + xs[idx[|idx| - 1]]
  }

  /** A sum of n values in `[lo, hi]` lies in `[n * lo, n * hi]`. */
  lemma {:induction false} SumAtBounds(xs: seq<int>, idx: seq<nat>, lo: int, hi: int)
    requires forall k | 0 <= k < |idx| :: idx[k] < |xs| && lo <= xs[idx[k]] <= hi
    ensures |idx| * lo <= SumAt(xs, idx) <= |idx| * hi
  {
    if |idx| > 0 {
      SumAtBounds(xs, idx[..|idx| - 1], lo, hi);
      assert |idx| * lo == (|idx| - 1) * lo + lo;
      assert |idx| * hi == (|idx| - 1) * hi + hi;
    }
  }

  /** Division rounding toward zero, as `np.int` truncates a float quotient. */
  function TruncDiv(a: int, n: nat): (q: int)
    requires n > 0
    ensures a >= 0 ==> 0 <= q && n * q <= a < n * q + n
    ensures a < 0 ==> q <= 0 && n * q - n < a <= n * q
  {
    if a >= 0 then
      FloorDivBounds(a, n);
      a / n
    else
      FloorDivBounds(-a, n);
      var q := (-a) / n;
      assert n * -q == -(n * q);
      -q
  }

  /** Floor division by a positive n brackets the dividend between consecutive multiples. */
  lemma FloorDivBounds(a: int, n: nat)
    requires n > 0 && a >= 0
    ensures 0 <= a / n && n * (a / n) <= a < n * (a / n) + n
  {
    var q, r := a / n, a % n;
    assert a == n * q + r && 0 <= r < n;
  }

  /** Multiplying by a non-negative factor preserves order. */
  lemma MulMonotone(n: nat, a: int, b: int)
    requires a <= b
    ensures n * a <= n * b
  {
    assert n * b - n * a == n * (b - a);
  }

  /** Floor division stays within bounds that bracket the dividend. */
  lemma DivBetween(a: int, n: nat, lo: int, hi: int)
    requires n > 0 && n * lo <= a <= n * hi
    ensures lo <= a / n <= hi
  {
    var q, r := a / n, a % n;
    assert a == n * q + r && 0 <= r < n;
    if q < lo {
      MulMonotone(n, q, lo - 1);
      assert false;
    }
    if q > hi {
      MulMonotone(n, hi + 1, q);
      assert false;
    }
  }

  /** The truncated quotient of a sum of n values in `[lo, hi]` by n lies in `[lo, hi]`. */
  lemma TruncDivBetween(a: int, n: nat, lo: int, hi: int)
    requires n > 0 && n * lo <= a <= n * hi
    ensures lo <= TruncDiv(a, n) <= hi
  {
    if a >= 0 {
      DivBetween(a, n, lo, hi);
    } else {
      assert n * (-hi) <= -a <= n * (-lo);
      DivBetween(-a, n, -hi, -lo);
    }
  }

  /** `np.int(np.mean(xs[idx]))`: the mean, truncated toward zero (not rounded). */
  function TruncMean(xs: seq<int>, idx: seq<nat>): (m: int)
    requires |idx| > 0 && forall k | 0 <= k < |idx| :: idx[k] < |xs|
    ensures SumAt(xs, idx) >= 0 ==> |idx| * m <= SumAt(xs, idx) < |idx| * m + |idx|
    ensures SumAt(xs, idx) < 0 ==> |idx| * m - |idx| < SumAt(xs, idx) <= |idx| * m
  {
    TruncDiv(SumAt(xs, idx), |idx|)
  }

  /** The cursor after a window that collected `good` around `cur`: it moves only when more
      than 50 pixels were collected, to their truncated mean column, and so never leaves the
      window's column range. */
  function Recenter(xs: seq<int>, good: seq<nat>, cur: int): (next: int)
    requires forall k | 0 <= k < |good| :: good[k] < |xs| && cur - Margin <= xs[good[k]] < cur + Margin
    ensures |good| <= MinNumberOfPixels ==> next == cur
    ensures |good| > MinNumberOfPixels ==> next == TruncMean(xs, good)
    ensures cur - Margin <= next < cur + Margin
  {
    if |good| > MinNumberOfPixels then
      SumAtBounds(xs, good, cur - Margin, cur + Margin - 1);
      TruncDivBetween(SumAt(xs, good), |good|, cur - Margin, cur + Margin - 1);
      TruncMean(xs, good)
    else cur
  }

  /** The search after w windows: the cursor for window w and the indices each earlier window
      collected. */
  datatype SearchState = SearchState(cursor: int, windows: seq<seq<nat>>)

  function Search(p: PixelList, height: nat, baseX: int, w: nat): (s: SearchState)
    requires p.Valid()
    ensures |s.windows| == w
  {
    if w == 0 then SearchState(baseX, [])
    else
      var s := Search(p, height, baseX, w - 1);
      var good := Select(p, WindowBox(height, w - 1, s.cursor), |p.xs|);
      SearchState(Recenter(p.xs, good, s.cursor), s.windows + [good])
  }

  /** The cursor at the start of window w. */
  function Cursor(p: PixelList, height: nat, baseX: int, w: nat): int
    requires p.Valid()
  {
    Search(p, height, baseX, w).cursor
  }

  /** `np.concatenate` of the per-window index arrays. */
  function Flatten(ws: seq<seq<nat>>): (r: seq<nat>)
    ensures forall i | i in r :: exists v | 0 <= v < |ws| :: i in ws[v]
  {
    if |ws| == 0 then []
    else
      var front := ws[..|ws| - 1];
      assert forall v | 0 <= v < |front| :: front[v] == ws[v];
      Flatten(front) + ws[|ws| - 1]
  }

  /** The indices collected by the first w windows, bottom window first. */
  function Collected(p: PixelList, height: nat, baseX: int, w: nat): seq<nat>
    requires p.Valid()
  {
    Flatten(Search(p, height, baseX, w).windows)
  }

  /** `xs[idx]`: fancy indexing. */
  function Gather(xs: seq<int>, idx: seq<nat>): (r: seq<int>)
    requires forall k | 0 <= k < |idx| :: idx[k] < |xs|
    ensures |r| == |idx| && forall k | 0 <= k < |idx| :: r[k] == xs[idx[k]]
  {
    seq(|idx|, k requires 0 <= k < |idx| => xs[idx[k]])
  }

  /** Window w collects exactly the pixels inside its box around the cursor it starts with. */
  lemma {:induction false} CollectedStep(p: PixelList, height: nat, baseX: int, w: nat)
    requires p.Valid()
    ensures Collected(p, height, baseX, w + 1)
         == Collected(p, height, baseX, w) + Select(p, WindowBox(height, w, Cursor(p, height, baseX, w)), |p.xs|)
  {
    var ws := Search(p, height, baseX, w + 1).windows;
    assert ws[..|ws| - 1] == Search(p, height, baseX, w).windows;
  }

  /** Every collected index is a pixel inside the box of some earlier window. */
  predicate InWindowBox(p: PixelList, height: nat, baseX: int, j: nat, v: nat)
    requires p.Valid() && j < |p.xs|
  {
    InBox(WindowBox(height, v, Cursor(p, height, baseX, v)), p.xs[j], p.ys[j])
  }

  /** Floor division by d of a value in `[v * d, v * d + d)` is v. */
  lemma DivUnique(a: int, d: nat, v: int)
    requires d > 0 && v * d <= a < v * d + d
    ensures a / d == v
  {
    var q, r := a / d, a % d;
    assert a == d * q + r && 0 <= r < d;
    if q < v {
      MulMonotone(d, q, v - 1);
      assert false;
    }
    if q > v {
      MulMonotone(d, v + 1, q);
      assert false;
    }
  }

  /** A row inside window v's band belongs to window v, and the bands are non-empty then. */
  lemma BandWindow(height: nat, v: nat, y: int)
    requires height - (v + 1) * WindowHeight(height) <= y < height - v * WindowHeight(height)
    ensures WindowHeight(height) > 0 && RowWindow(height, y) == v
    ensures height - NWindows * WindowHeight(height) <= y || v >= NWindows
  {
    var wh := WindowHeight(height);
    assert (v + 1) * wh == v * wh + wh;
    DivUnique(height - 1 - y, wh, v);
    if v < NWindows {
      assert (v + 1) * wh <= NWindows * wh;
    }
  }

  /** Each index collected by the first w windows names a pixel that lies in the box of the
      window its row belongs to, that window being one of the first w. */
  lemma {:induction false} CollectedInWindows(p: PixelList, height: nat, baseX: int, w: nat)
    requires p.Valid()
    ensures forall k | 0 <= k < |Collected(p, height, baseX, w)| ::
      && Collected(p, height, baseX, w)[k] < |p.xs|
      && 0 <= RowWindow(height, p.ys[Collected(p, height, baseX, w)[k]]) < w
      && InWindowBox(p, height, baseX, Collected(p, height, baseX, w)[k],
                     RowWindow(height, p.ys[Collected(p, height, baseX, w)[k]]))
  {
    if w > 0 {
      CollectedInWindows(p, height, baseX, w - 1);
      CollectedStep(p, height, baseX, w - 1);
      var before := Collected(p, height, baseX, w - 1);
      var good := Select(p, WindowBox(height, w - 1, Cursor(p, height, baseX, w - 1)), |p.xs|);
      var all := Collected(p, height, baseX, w);
      forall k | 0 <= k < |all|
        ensures all[k] < |p.xs| && 0 <= RowWindow(height, p.ys[all[k]]) < w
             && InWindowBox(p, height, baseX, all[k], RowWindow(height, p.ys[all[k]]))
      {
        if k < |before| {
          assert all[k] == before[k];
        } else {
          var j := good[k - |before|];
          assert all[k] == j;
          BandWindow(height, w - 1, p.ys[j]);
        }
      }
    }
  }

  /** Index j1 may precede j2 in the output: an earlier (lower) window, or the same window and
      an earlier position in the nonzero arrays. */
  predicate WindowOrder(p: PixelList, height: nat, j1: nat, j2: nat)
    requires p.Valid() && j1 < |p.xs| && j2 < |p.xs|
  {
    RowWindow(height, p.ys[j1]) < RowWindow(height, p.ys[j2]) ||
    (RowWindow(height, p.ys[j1]) == RowWindow(height, p.ys[j2]) && j1 < j2)
  }

  /** Indices pairwise in window order. */
  predicate InWindowOrder(p: PixelList, height: nat, idx: seq<nat>)
    requires p.Valid()
  {
    && (forall k | 0 <= k < |idx| :: idx[k] < |p.xs|)
    && (forall k, l | 0 <= k < l < |idx| :: WindowOrder(p, height, idx[k], idx[l]))
  }

  /** Appending what window v collects to what the windows below it collected keeps the
      window order. */
  lemma AppendWindowOrder(p: PixelList, height: nat, before: seq<nat>, good: seq<nat>, v: nat, cur: int)
    requires p.Valid() && InWindowOrder(p, height, before)
    requires forall k | 0 <= k < |before| :: RowWindow(height, p.ys[before[k]]) < v
    requires forall k | 0 <= k < |good| :: good[k] < |p.xs| && InBox(WindowBox(height, v, cur), p.xs[good[k]], p.ys[good[k]])
    requires forall k, l | 0 <= k < l < |good| :: good[k] < good[l]
    ensures InWindowOrder(p, height, before + good)
  {
    var all := before + good;
    forall k, l | 0 <= k < l < |all| ensures WindowOrder(p, height, all[k], all[l]) {
      if l < |before| {
        assert all[k] == before[k] && all[l] == before[l];
      } else if k < |before| {
        assert all[k] == before[k] && all[l] == good[l - |before|];
        BandWindow(height, v, p.ys[good[l - |before|]]);
      } else {
        assert all[k] == good[k - |before|] && all[l] == good[l - |before|];
        BandWindow(height, v, p.ys[good[k - |before|]]);
        BandWindow(height, v, p.ys[good[l - |before|]]);
      }
    }
  }

  /** Collected indices come window by window from the bottom, and in increasing (original
      nonzero) order within a window; so no index is collected twice. */
  lemma {:induction false} CollectedOrder(p: PixelList, height: nat, baseX: int, w: nat)
    requires p.Valid()
    ensures InWindowOrder(p, height, Collected(p, height, baseX, w))
  {
    if w > 0 {
      CollectedOrder(p, height, baseX, w - 1);
      CollectedInWindows(p, height, baseX, w - 1);
      CollectedStep(p, height, baseX, w - 1);
      var cur := Cursor(p, height, baseX, w - 1);
      AppendWindowOrder(p, height, Collected(p, height, baseX, w - 1),
                        Select(p, WindowBox(height, w - 1, cur), |p.xs|), w - 1, cur);
    }
  }

  /** The indices of the lane's pixels after all nine windows. */
  function LaneIndices(p: PixelList, height: nat, baseX: int): (idx: seq<nat>)
    requires p.Valid()
    ensures forall k | 0 <= k < |idx| :: idx[k] < |p.xs|
  {
    CollectedInWindows(p, height, baseX, NWindows);
    Collected(p, height, baseX, NWindows)
  }

  /** The lane's pixel coordinates: `xs[laneIndices], ys[laneIndices]`. */
  function LanePixels(p: PixelList, height: nat, baseX: int): (lane: PixelList)
    requires p.Valid()
    ensures lane.Valid() && |lane.xs| == |LaneIndices(p, height, baseX)|
    ensures forall k | 0 <= k < |lane.xs| ::
      exists i | 0 <= i < |p.xs| :: lane.xs[k] == p.xs[i] && lane.ys[k] == p.ys[i]
  {
    var idx := LaneIndices(p, height, baseX);
    PixelList(Gather(p.xs, idx), Gather(p.ys, idx))
  }

  /** Each window's cursor rule: the cursor moves only after a window that collected more than
      50 pixels, to their truncated mean column, and stays within that window's column range. */
  lemma CursorStep(p: PixelList, height: nat, baseX: int, w: nat)
    requires p.Valid()
    ensures var good := Select(p, WindowBox(height, w, Cursor(p, height, baseX, w)), |p.xs|);
      && (|good| <= MinNumberOfPixels ==> Cursor(p, height, baseX, w + 1) == Cursor(p, height, baseX, w))
      && (|good| > MinNumberOfPixels ==> Cursor(p, height, baseX, w + 1) == TruncMean(p.xs, good))
      && Cursor(p, height, baseX, w) - Margin <= Cursor(p, height, baseX, w + 1) < Cursor(p, height, baseX, w) + Margin
  {
  }

  /** A later window never changes what an earlier one collected. */
  lemma {:induction false} WindowsStable(p: PixelList, height: nat, baseX: int, w: nat, v: nat)
    requires p.Valid() && v < w
    ensures Search(p, height, baseX, w).windows[v]
         == Select(p, WindowBox(height, v, Cursor(p, height, baseX, v)), |p.xs|)
  {
    var prev := Search(p, height, baseX, w - 1);
    var good := Select(p, WindowBox(height, w - 1, prev.cursor), |p.xs|);
    var all := prev.windows + [good];
    assert Search(p, height, baseX, w).windows == all;
    if v < w - 1 {
      WindowsStable(p, height, baseX, w - 1, v);
      assert all[v] == prev.windows[v];
    } else {
      assert all[v] == good;
    }
  }

  /** Whatever one of the lists holds, their concatenation holds. */
  lemma {:induction false} FlattenContains(ws: seq<seq<nat>>, v: nat, i: nat)
    requires v < |ws| && i in ws[v]
    ensures i in Flatten(ws)
  {
    if v < |ws| - 1 {
      FlattenContains(ws[..|ws| - 1], v, i);
    }
  }

  /** Window v's selection is part of what the first w windows collect, for every v < w. */
  lemma CollectedContainsWindow(p: PixelList, height: nat, baseX: int, w: nat, v: nat, i: nat)
    requires p.Valid() && v < w
    requires i in Select(p, WindowBox(height, v, Cursor(p, height, baseX, v)), |p.xs|)
    ensures i in Collected(p, height, baseX, w)
  {
    WindowsStable(p, height, baseX, w, v);
    FlattenContains(Search(p, height, baseX, w).windows, v, i);
  }

  /** The pixels `_findLanePixelsOfOneLane` returns: every one is a pixel of the input lists,
      lies in the row band of one of the nine windows and within 75 columns of the cursor that
      window started with (so no row above `H - 9 * (H // 9)` is ever returned); and every input
      pixel inside such a window is returned. */
  lemma LanePixelsInWindows(p: PixelList, height: nat, baseX: int)
    requires p.Valid()
    ensures LanePixels(p, height, baseX).Valid()
    ensures |LanePixels(p, height, baseX).xs| == |LaneIndices(p, height, baseX)|
    ensures forall k | 0 <= k < |LaneIndices(p, height, baseX)| ::
      && LanePixels(p, height, baseX).xs[k] == p.xs[LaneIndices(p, height, baseX)[k]]
      && LanePixels(p, height, baseX).ys[k] == p.ys[LaneIndices(p, height, baseX)[k]]
    ensures forall k | 0 <= k < |LaneIndices(p, height, baseX)| ::
      && 0 <= RowWindow(height, LanePixels(p, height, baseX).ys[k]) < NWindows
      && InBox(WindowBox(height, RowWindow(height, LanePixels(p, height, baseX).ys[k]),
                         Cursor(p, height, baseX, RowWindow(height, LanePixels(p, height, baseX).ys[k]))),
               LanePixels(p, height, baseX).xs[k], LanePixels(p, height, baseX).ys[k])
      && height - NWindows * WindowHeight(height) <= LanePixels(p, height, baseX).ys[k] < height
    ensures forall v, i | 0 <= v < NWindows && 0 <= i < |p.xs| &&
                          InBox(WindowBox(height, v, Cursor(p, height, baseX, v)), p.xs[i], p.ys[i]) ::
      i in LaneIndices(p, height, baseX)
  {
    var idx := LaneIndices(p, height, baseX);
    var lane := LanePixels(p, height, baseX);
    CollectedInWindows(p, height, baseX, NWindows);
    forall k | 0 <= k < |idx|
      ensures height - NWindows * WindowHeight(height) <= lane.ys[k] < height
    {
      var v := RowWindow(height, lane.ys[k]);
      assert InWindowBox(p, height, baseX, idx[k], v);
      BandWindow(height, v, lane.ys[k]);
      assert v * WindowHeight(height) >= 0;
    }
    forall v, i | 0 <= v < NWindows && 0 <= i < |p.xs| &&
                  InBox(WindowBox(height, v, Cursor(p, height, baseX, v)), p.xs[i], p.ys[i])
      ensures i in idx
    {
      CollectedContainsWindow(p, height, baseX, NWindows, v, i);
    }
  }

  /** Returned pixels come bottom window first and, within a window, in the order of the input
      lists; no input pixel is returned twice. */
  lemma LanePixelsOrder(p: PixelList, height: nat, baseX: int)
    requires p.Valid()
    ensures forall k, l | 0 <= k < l < |LaneIndices(p, height, baseX)| ::
      WindowOrder(p, height, LaneIndices(p, height, baseX)[k], LaneIndices(p, height, baseX)[l])
    ensures forall k, l | 0 <= k < l < |LaneIndices(p, height, baseX)| ::
      LaneIndices(p, height, baseX)[k] != LaneIndices(p, height, baseX)[l]
  {
    CollectedOrder(p, height, baseX, NWindows);
  }

  /** On the mask's own nonzero pixels, the search returns "on" pixels of the mask only, each
      inside the image, and no pixel twice. */
  lemma LaneOfMask(m: Mask, baseX: int)
    requires m.Valid()
    ensures var lane := LanePixels(NonZeroPixels(m), m.Height(), baseX);
      lane.Valid() &&
      (forall k | 0 <= k < |lane.xs| ::
        0 <= lane.xs[k] < m.width && 0 <= lane.ys[k] < m.Height() && m.rows[lane.ys[k]][lane.xs[k]] != 0) &&
      (forall k, l | 0 <= k < l < |lane.xs| :: lane.xs[k] != lane.xs[l] || lane.ys[k] != lane.ys[l])
  {
    var p := NonZeroPixels(m);
    var idx := LaneIndices(p, m.Height(), baseX);
    var lane := LanePixels(p, m.Height(), baseX);
    LanePixelsInWindows(p, m.Height(), baseX);
    LanePixelsOrder(p, m.Height(), baseX);
    forall k, l | 0 <= k < l < |lane.xs| ensures lane.xs[k] != lane.xs[l] || lane.ys[k] != lane.ys[l] {
      var i, j := idx[k], idx[l];
      assert i != j;
      if i < j {
        assert RowMajorBefore(p.ys[i], p.xs[i], p.ys[j], p.xs[j]);
      } else {
        assert RowMajorBefore(p.ys[j], p.xs[j], p.ys[i], p.xs[i]);
      }
    }
  }

  /** One step of the search: window w selects around the current cursor and recentres it. */
  lemma SearchUnfold(p: PixelList, height: nat, baseX: int, w: nat)
    requires p.Valid()
    ensures var s := Search(p, height, baseX, w);
      var good := Select(p, WindowBox(height, w, s.cursor), |p.xs|);
      Search(p, height, baseX, w + 1) == SearchState(Recenter(p.xs, good, s.cursor), s.windows + [good])
  {
  }

  /** `_findLanePixelsOfOneLane`: the nine-window loop. */
  method FindLanePixelsOfOneLane(nonzeros: PixelList, height: nat, baseXCoordinate: int)
    returns (lane: PixelList)
    requires nonzeros.Valid()
    ensures lane == LanePixels(nonzeros, height, baseXCoordinate)
  {
    var windowHeight := height / NWindows;
    var currentXCoordinate := baseXCoordinate;
    var laneIndices: seq<seq<nat>> := [];
    for window := 0 to NWindows
      invariant SearchState(currentXCoordinate, laneIndices) == Search(nonzeros, height, baseXCoordinate, window)
    {
      var lowYInWindow := height - (window + 1) * windowHeight;
      var highYInWindow := height - window * windowHeight;
      var lowXInWindow := currentXCoordinate - Margin;
      var highXInWindow := currentXCoordinate + Margin;
      var box := Box(lowXInWindow, highXInWindow, lowYInWindow, highYInWindow);
      assert box == WindowBox(height, window, currentXCoordinate);
      var goodIndices := Select(nonzeros, box, |nonzeros.xs|);
      ghost var next := Recenter(nonzeros.xs, goodIndices, currentXCoordinate);
      SearchUnfold(nonzeros, height, baseXCoordinate, window);
      laneIndices := laneIndices + [goodIndices];
      if |goodIndices| > MinNumberOfPixels {
        currentXCoordinate := TruncMean(nonzeros.xs, goodIndices);
      }
      assert currentXCoordinate == next;
    }
    assert laneIndices == Search(nonzeros, height, baseXCoordinate, NWindows).windows;
    var indices := Flatten(laneIndices);
    assert indices == LaneIndices(nonzeros, height, baseXCoordinate);
    lane := PixelList(Gather(nonzeros.xs, indices), Gather(nonzeros.ys, indices));
  }
}
