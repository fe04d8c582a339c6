# Lane finding core, modelled in Dafny

This project models the geometric core of an advanced lane-finding pipeline for dashboard-camera
video. The pipeline turns each frame into a binary bird's-eye mask. It then locates the two lane
markings. A column histogram of the lower half of the mask seeds a left and a right lane
position. A nine-window sliding search collects each lane's pixels. The fitted quadratics are
sampled at every image row. The car's lateral offset is measured at the bottom row. The
processor also defines a sanity gate and a history store of earlier frames' values; the video
driver calls neither, so both are modelled on their own. The project also models the corner
points of the perspective transform: the source trapezoid and the destination rectangle.

Modules:

- `Wrappers`: the `Option` type. `None` stands for a Python exception (an index into an empty
  list, the argmax of an empty slice) or for a NaN.
- `LaneSeeding`: the mask, the lower-half histogram, the left and right seeds, and the
  row-major list of "on" pixels.
- `SlidingWindow`: the nine-window search. The recursive function `Search` specifies it, and
  the method `FindLanePixelsOfOneLane` is the loop, proved equal to it.
- `LaneMetrics`: row sampling of a fit, the sanity gate and the lateral offset.
- `FormerLanesHistory`: the history store, a class with five append-only lists.
- `Perspective`: the four source corners and the four destination corners.

Behaviour of the code that the model keeps:

- The cursor moves to the window's mean x truncated toward zero by `np.int`, not rounded
  (`TruncMean`).
- A radius of 1000 m or more skips the ratio test, so left 500 m / right 1100 m passes
  (`ReferenceWidthExamples`).
- A search that finds nothing returns empty coordinate arrays.
- The history store keeps five lists that only grow, and each getter reads the last element.
- The argmax of an empty half of the histogram raises; here it is `None`.

## Model

| member | source | states |
|---|---|---|
| LaneSeeding.ColumnSumZero | python_source/lane_processor.py:131 | a column sum is zero exactly when every pixel of that column is off |
| LaneSeeding.ColumnSum | python_source/lane_processor.py:131 | a column sum is at least each of its pixels and at most 255 times the number of rows |
| LaneSeeding.LowerHalf | python_source/lane_processor.py:131 | the rows H//2 .. H-1, in order |
| LaneSeeding.HistogramOfLowerPart | python_source/lane_processor.py:129-131 | one entry per column; an entry is zero exactly when the column has no "on" pixel in rows H//2 .. H-1 |
| LaneSeeding.Argmax | python_source/lane_processor.py:135 | the index of a maximum, and no earlier index reaches it (numpy's first-maximum rule) |
| LaneSeeding.BaseLeftX | python_source/lane_processor.py:133-135 | fails exactly when W//2 is 0; otherwise the first column of maximal histogram value in [0, W//2) |
| LaneSeeding.BaseRightX | python_source/lane_processor.py:137-140 | fails exactly when W is 0; otherwise the first column of maximal histogram value in [W//2, W), in image coordinates |
| LaneSeeding.LeftSeedOnLane | python_source/lane_processor.py:129-135 | if any lower-half pixel of the left half is on, a left seed exists and its column has an "on" lower-half pixel |
| LaneSeeding.RightSeedOnLane | python_source/lane_processor.py:129-140 | the same for the right half |
| LaneSeeding.UpperHalfIrrelevant | python_source/lane_processor.py:129-140 | masks that agree on the lower half give the same histogram and the same seeds |
| LaneSeeding.NonZeroInRow | python_source/lane_processor.py:144 | x and y lists of equal length, no more pixels than columns scanned, none from an all-off row |
| LaneSeeding.NonZeroInRowOn | python_source/lane_processor.py:144 | every pixel that one row contributes is "on" and lies in that row |
| LaneSeeding.NonZeroInRowComplete | python_source/lane_processor.py:144 | every "on" pixel of the row is contributed |
| LaneSeeding.NonZeroInRowSorted | python_source/lane_processor.py:144 | a row contributes its pixels left to right |
| LaneSeeding.AppendRowOn | python_source/lane_processor.py:144 | appending a row's pixels keeps every listed pixel "on" |
| LaneSeeding.AppendRowComplete | python_source/lane_processor.py:144 | appending a row's pixels misses no "on" pixel of the rows covered so far |
| LaneSeeding.AppendRowSorted | python_source/lane_processor.py:144 | appending a row's pixels keeps row-major order |
| LaneSeeding.NonZeroInRows | python_source/lane_processor.py:144 | the pixels of the first r rows: all "on", none missed, strictly row-major |
| LaneSeeding.NonZeroPixels | python_source/lane_processor.py:142-145 | x and y lists of equal length; every entry is an "on" pixel inside the mask; every "on" pixel occurs; strictly increasing row-major order, so no duplicates |
| SlidingWindow.WindowHeight | python_source/lane_processor.py:149 | the floor of H/9: nine bands of that height fit in H with less than nine rows left over |
| SlidingWindow.WindowBox | python_source/lane_processor.py:156-159 | a box 150 columns wide starting 75 left of the cursor, one band high |
| SlidingWindow.BandsAdjacent | python_source/lane_processor.py:156-157 | window w+1's band ends where window w's begins, so the bands neither overlap nor leave gaps |
| SlidingWindow.Select | python_source/lane_processor.py:161 | the selected indices are exactly the pixels inside the window's box, in increasing order |
| SlidingWindow.TruncDiv | python_source/lane_processor.py:164 | division truncated toward zero: n*q brackets a from below for a >= 0 and from above for a < 0, less than n away |
| SlidingWindow.TruncMean | python_source/lane_processor.py:164 | the mean of the selected x values truncated toward zero, stated the same way on their sum |
| SlidingWindow.SumAtBounds | python_source/lane_processor.py:164 | helper for TruncDivBetween and Recenter: n values in [lo, hi] sum to a value in [n*lo, n*hi] |
| SlidingWindow.TruncDivBetween | python_source/lane_processor.py:164 | the truncated quotient of such a sum by n lies in [lo, hi] |
| SlidingWindow.Recenter | python_source/lane_processor.py:163-164 | the cursor stays put at 50 pixels or fewer; it moves to the truncated mean above 50; it always stays within 75 columns of the old cursor |
| SlidingWindow.Search | python_source/lane_processor.py:153-164 | after w windows the search holds exactly w per-window index lists |
| SlidingWindow.CollectedStep | python_source/lane_processor.py:161-162 | window w adds exactly its own selection, taken around the cursor it starts with |
| SlidingWindow.BandWindow | python_source/lane_processor.py:149-157 | a row inside window v's band belongs to window v; such a row lies at or below H - 9*(H//9) when v < 9 |
| SlidingWindow.CollectedInWindows | python_source/lane_processor.py:155-162 | every collected index is a pixel inside the box of the window its row belongs to |
| SlidingWindow.AppendWindowOrder | python_source/lane_processor.py:162-167 | appending a higher window's selection keeps window order |
| SlidingWindow.CollectedOrder | python_source/lane_processor.py:155-167 | collected indices come window by window from the bottom, increasing within a window |
| SlidingWindow.Gather | python_source/lane_processor.py:171-172 | fancy indexing: entry k is xs at the k-th index |
| SlidingWindow.LaneIndices | python_source/lane_processor.py:166-169 | every concatenated index names a pixel of the input |
| SlidingWindow.CursorStep | python_source/lane_processor.py:163-164 | the cursor rule, stated for every window of the search |
| SlidingWindow.WindowsStable | python_source/lane_processor.py:162 | a later window never changes what an earlier window collected |
| SlidingWindow.Flatten | python_source/lane_processor.py:167 | every element of the concatenation comes from one of the lists |
| SlidingWindow.FlattenContains | python_source/lane_processor.py:167 | whatever one list holds, their concatenation holds |
| SlidingWindow.CollectedContainsWindow | python_source/lane_processor.py:155-167 | each window's whole selection ends up in the result |
| SlidingWindow.LanePixels | python_source/lane_processor.py:171-172 | x and y lists of equal length, one entry per collected index, each entry an input pixel |
| SlidingWindow.LanePixelsInWindows | python_source/lane_processor.py:147-173 | the result pairs x and y of the input pixels; each lies in its window's row band and within 75 columns of that window's cursor, never above row H - 9*(H//9); every input pixel inside some window's box is returned |
| SlidingWindow.LanePixelsOrder | python_source/lane_processor.py:155-173 | results come bottom window first, in input order within a window; no input pixel is returned twice |
| SlidingWindow.LaneOfMask | python_source/lane_processor.py:142-173 | on the mask's own pixel list, every returned pixel is "on" and inside the image, and none is returned twice |
| SlidingWindow.FindLanePixelsOfOneLane | python_source/lane_processor.py:147-173 | the nine-window loop returns exactly the pixels that the search specification selects |
| LaneMetrics.Evaluate | python_source/lane_processor.py:179-181 | a fit with zero quadratic and linear terms gives its constant; every fit gives its constant at row 0; the fallback curve is y*(y+1) |
| LaneMetrics.PixelsForPlotting | python_source/lane_processor.py:175-182 | one sample per row 0..H-1; ys[i] = i and xs[i] is the fit evaluated at row i |
| LaneMetrics.FallbackCurve | python_source/lane_processor.py:180-181 | a fit that cannot be indexed samples the same as coefficients (1, 1, 0) |
| LaneMetrics.StraightFit | python_source/lane_processor.py:179 | a fit with only a constant term samples a vertical line |
| LaneMetrics.Mean | python_source/lane_processor.py:72 | the mean is NaN (None) exactly when there are no rows |
| LaneMetrics.LaneWidths | python_source/lane_processor.py:72 | per-row lane width in metres, (right - left) * 3.7 / 640 |
| LaneMetrics.RatioOutOfRange | python_source/lane_processor.py:76-77 | for a negative left radius, out of range exactly when right lies outside [2*left, left/2] (the positive case is RatioForPositiveLeft) |
| LaneMetrics.BelowReliable | python_source/lane_processor.py:75 | an infinite radius is never below 1000 m; a radius that is below is finite and under 1000 m |
| LaneMetrics.SanityCheck | python_source/lane_processor.py:71-79 | a mean width outside [3.4, 4.0] m always fails; when either radius is 1000 m or more only the width decides; with no rows (NaN mean) only the ratio decides. SanityCheckCharacterised gives the full characterisation |
| LaneMetrics.SumOfConstant | python_source/lane_processor.py:72 | helper for ConstantSeparation: n copies of v sum to n*v |
| LaneMetrics.ConstantSeparation | python_source/lane_processor.py:72 | lanes a constant d px apart have mean width d*3.7/640 m |
| LaneMetrics.SanityOfParallelLanes | python_source/lane_processor.py:71-79 | for lanes a constant d px apart the gate passes exactly when d*3.7/640 is in [3.4, 4.0] and, if both radii are below 1000, the ratio right/left is in [0.5, 2] |
| LaneMetrics.RatioForPositiveLeft | python_source/lane_processor.py:76-77 | for a positive left radius the ratio test reads 0.5*left <= right <= 2*left |
| LaneMetrics.SumOfWidths | python_source/lane_processor.py:72 | the widths sum to the difference of the column sums, scaled to metres |
| LaneMetrics.SanityCheckCharacterised | python_source/lane_processor.py:71-79 | for positive radii, the gate passes exactly when there are no rows, or the summed separation over n rows is within [3.4n, 4.0n] m; in addition, when both radii are below 1000, right must lie in [left/2, 2*left] |
| LaneMetrics.WidthGate | python_source/lane_processor.py:72-73 | the width test on the mean equals the test on the summed separation against n times each bound |
| LaneMetrics.ScaledBound | python_source/lane_processor.py:73 | helper for WidthGate and RatioForPositiveLeft: comparing s/n (n > 0) with a bound is comparing s with n times the bound |
| LaneMetrics.RatioSymmetric | python_source/lane_processor.py:76-77 | the ratio test gives the same verdict with the radii swapped, including the IEEE division-by-zero cases |
| LaneMetrics.SanityRadiusSymmetric | python_source/lane_processor.py:71-79 | the gate gives the same verdict with the two radii swapped |
| LaneMetrics.XOffset | python_source/lane_processor.py:89-94 | fails exactly when a plot is empty; otherwise the offset is zero exactly when the lane centre is the image centre, and positive exactly when the lane centre lies left of it |
| LaneMetrics.Shift | python_source/lane_processor.py:91 | helper for XOffsetShift: adds d to every sample |
| LaneMetrics.XOffsetShift | python_source/lane_processor.py:89-94 | moving both lanes d px right lowers the offset by d*3.7/640 m |
| LaneMetrics.Negate | python_source/lane_processor.py:91 | helper for XOffsetMirror: negates every sample |
| LaneMetrics.XOffsetMirror | python_source/lane_processor.py:89-94 | mirroring both lanes about the image centre and swapping them negates the offset |
| LaneMetrics.XOffsetAtBottomRow | python_source/lane_processor.py:89-94 | on sampled fits the offset is measured at the bottom row y = H-1 |
| LaneMetrics.StraightLanesExample | python_source/lane_processor.py:71-94 | vertical lanes at x = 300 and 900 in a 1280 px image pass the gate, with an offset of 0.23125 m |
| LaneMetrics.ReferenceWidthExamples | python_source/lane_processor.py:71-79 | lanes 640 px apart: radii (500, 800) pass, (500, 1100) pass, (300, 900) fail, (1200, 3000) pass |
| FormerLanesHistory.Newest | python_source/lane_processor.py:13 | `s[-1]`: fails exactly on an empty list, otherwise gives the last element |
| FormerLanesHistory.FormerLanes.constructor | python_source/lane_processor.py:5-10 | all five lists start empty |
| FormerLanesHistory.FormerLanes.GetLeft | python_source/lane_processor.py:12-13 | fails exactly when nothing was stored; otherwise returns the newest left plot |
| FormerLanesHistory.FormerLanes.GetRight | python_source/lane_processor.py:15-16 | the same for the right plot |
| FormerLanesHistory.FormerLanes.GetLeftCurvature | python_source/lane_processor.py:18-19 | the same for the left radius |
| FormerLanesHistory.FormerLanes.GetRightCurvature | python_source/lane_processor.py:21-22 | the same for the right radius |
| FormerLanesHistory.FormerLanes.GetOffset | python_source/lane_processor.py:24-25 | the same for the offset |
| FormerLanesHistory.FormerLanes.NewLeft | python_source/lane_processor.py:27-29 | appends to the left list, after which GetLeft returns the new value; the other lists are unchanged |
| FormerLanesHistory.FormerLanes.NewRight | python_source/lane_processor.py:31-33 | the same for the right list |
| FormerLanesHistory.FormerLanes.NewLeftCurvature | python_source/lane_processor.py:35-37 | the same for the left radius list |
| FormerLanesHistory.FormerLanes.NewRightCurvature | python_source/lane_processor.py:39-41 | the same for the right radius list |
| FormerLanesHistory.FormerLanes.NewOffset | python_source/lane_processor.py:43-45 | the same for the offset list |
| FormerLanesHistory.HistoryScenario | python_source/lane_processor.py:4-45 | a fresh store fails a read; after stores, a read gives the latest value of its own kind, and a kind never stored still fails |
| Perspective.CreateSource | python_source/perspective_transform.py:16-28 | bottom corners on row H, 200 px in from each side; top corners on row 450, 595 px in from each side; mirror-symmetric about x = W/2 |
| Perspective.CreateDestination | python_source/perspective_transform.py:30-40 | a rectangle from x = W/4 to W - W/4 spanning rows 0..H |
| Perspective.SourceIsTrapezoid | python_source/perspective_transform.py:16-28 | the source corners form an isosceles trapezoid with the shorter side on top exactly when W > 1190 and H > 450 |
| Perspective.DestinationIsRectangle | python_source/perspective_transform.py:30-40 | the destination is an axis-aligned rectangle exactly when W > 0 and H > 0; its width is W/2 |
| Perspective.ProjectImageSize | python_source/project2.py:14 | at 1280 x 720 the source top edge is 90 px and the bottom edge 880 px wide; both shapes are proper |

## Left out

- `LaneProcessor.generateLanePixels` is the orchestration that calls `np.polyfit` and the curvature formula. Least-squares fitting and the curvature radius are floating-point numerics; their results enter the model as parameters (`Fit`, `Radius`).
- `LaneProcessor._calculateCurvature` is left out for the same reason, so no member relates fit coefficients to a radius: the radius enters as a parameter, and `Radius.Infinite` stands for the +inf that float64 gives when the leading coefficient is 0. `Radius.Finite` accepts any real and `SanityCheck` handles every value; only `SanityCheckCharacterised` assumes that a finite left radius is positive.
- `drawLanes` and `drawLanesWith` rasterise a polygon with OpenCV. That is I/O-style rendering.
- The OpenCV warp matrices (`cv2.getPerspectiveTransform`) are foreign calls. Only their corner inputs are modelled.
- The plain getters of `LaneProcessor` and `PerspectiveTransform` are left out. They only return fields.
- Camera calibration, colour and gradient thresholding, and the video driver in `project2.py` are not part of this model.
- Floating point: every float64 value is an exact `real`. Rounding in the mean, the ratio and the offset is not captured. The `np.float32` conversion of the corner points is not captured either.
- The mask is a single channel. The slice `binaryImage[:, :, 0]` is taken as already done.
- `np.nonzero` treats any non-zero intensity as "on"; so does the model.
- LaneMetrics.SanityCheckCharacterised: assumes a positive left radius. A negative left radius is characterised by the contract of `RatioOutOfRange`; a zero left radius (float64 division by zero) only by its definition and `RatioSymmetric`.
- LaneMetrics.XOffset: the exact metre value is characterised through `XOffsetShift`, `XOffsetMirror` and `XOffsetAtBottomRow` rather than in its own contract.
