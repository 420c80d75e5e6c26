# Nyan cat analyzer: a Dafny model

A model of Clementine's "Nyan nyan nyan" spectrum analyzer widget
(`NyanCatAnalyzer`). The widget keeps a rolling history of per-band
spectral magnitudes and draws it as a rainbow of polylines that scrolls
behind an animated cat. The model covers:

- the spectral history tracker: the flat `bands × H` history array, the
  per-frame `memmove` shift of every band's row, and the accumulation of
  the lower half of the transform into `bands` equal groups of samples,
  each scaled by its band's factor (`history.dfy`);
- the polyline geometry: one point per history slot, with a truncated
  integer `px_per_frame` spacing and a per-band baseline (`geometry.dfy`);
- the render cache: a null or valid pixmap, the full rebuild that draws
  every band's whole polyline from the last band down, and the
  incremental update that scrolls the buffer and draws only each band's
  last two points (`render.dfy`);
- the sprite frame counter and the cat's destination rectangle
  (`sprite.dfy`);
- the widget as a state record with its events: construction, resize,
  timer and paint (`nyancat.dfy`).

`params.dfy` holds the header constants (`kRainbowBands`, `kHistorySize`,
`kCatWidth`, `kCatHeight`, `kRainbowOverlap`, `kCatFrameCount`) as a
`Config` value with a validity predicate, and the flat-index arithmetic.
The header itself is not part of this model.

Modelling choices:

- Floats are `real`. Band scale factors are a given `seq<real>` with one
  entry per band.
- `px_per_frame` and the cat's vertical offset are C++ conversions and
  divisions that round toward zero. `Params.TruncDiv` models them, since
  Dafny's `/` rounds down. The frame counter's `%` is `Params.TruncMod`.
- Drawing is modelled as the list of commands issued on the buffer's
  painter: fill, scroll, gap fill and polylines. Each polyline command
  records its band, the index of its first point and the points
  themselves. The widget painter gets a list of two commands: draw the
  buffer, then draw the cat.
- `Config.Valid` requires at least two history slots. The incremental
  update draws the two points that end each band, so with one slot the
  source would index before the polyline array.
- `RowStart(b)` is `b * H` written as repeated addition.
  `RowStartIsProduct` proves the two are equal. This keeps nonlinear
  arithmetic out of the array proofs.

Behaviour of the code worth knowing:

- A paint without a new audio frame on a valid buffer still scrolls the
  buffer and redraws the last two points of every band
  (`nyancatanalyzer.cpp:119` tests only `buffer_.isNull()`). So two paints
  without new data do not leave the same buffer.
- Nothing checks the widget size before painting. `QPixmap(size())` for a
  widget with a zero or negative width or height is a null pixmap
  (`Render.NewPixmap`), so such a widget keeps a null buffer and every
  paint takes the full-rebuild branch again. The commands are still issued,
  on a painter that draws nothing.
- A buffer's validity is not compared with the widget size at paint time.
  It rests on `resizeEvent` nulling the buffer. `NyanCatAnalyzer.Inv`
  captures this: a valid buffer has the widget's size, and every event
  preserves that.
- Hues are `i * 255 / kRainbowBands`, so they spread over 0..255, not over
  the whole 0..359 hue circle that `QColor::fromHsv` accepts.

## Model

| member | source | states |
|---|---|---|
| History.AdvanceHistory | src/analyzers/nyancatanalyzer.cpp:72-93 | The new-frame branch (row shifts, then band accumulation with a running sample index) produces exactly `Advance`: every slot takes its right neighbour's old value, and each band's last slot takes that band's scaled group sum |
| History.Advance | src/analyzers/nyancatanalyzer.cpp:72-93 | The new history, defined band by band as each old row without its oldest slot followed by the band's scaled group sum, gives every non-last slot its right neighbour's old value and every band's last slot that sum |
| History.ShiftRow | src/analyzers/nyancatanalyzer.cpp:74-79 | One band's `memmove` of `H-1` floats: slot `x < H-1` of that band takes the old value of slot `x+1`, and every other entry of the array, the band's last slot included, keeps its old value (a frame condition over `old`) |
| History.ShiftRows | src/analyzers/nyancatanalyzer.cpp:74-79 | After the `memmove` pass, slot `x < H-1` of every band holds the old slot `x+1` of the same band, and every band's last slot still holds its old value |
| History.BandValue | src/analyzers/nyancatanalyzer.cpp:84-92 | The value appended to band `b` is the sum of its group `[b*spb, (b+1)*spb)` times `band_scale_[b]`. When `spb` is 0 the group is empty and the value is 0 |
| History.BandValueReadsOwnGroup | src/analyzers/nyancatanalyzer.cpp:84-92 | Two frames of the same length that agree on band `b`'s group give band `b` the same value, so no band reads another band's samples |
| History.AccumulateGroup | src/analyzers/nyancatanalyzer.cpp:87-90 | The inner loop's accumulator is the left-to-right sum of the `count` samples from `start` on, and the running index ends at `start + count` |
| History.AdvanceRow | src/analyzers/nyancatanalyzer.cpp:72-93 | Each band's new row is its old row without the oldest slot, followed by the band's new value. Every band is described, so no band's update touches another band's slots |
| History.SamplesUsed | src/analyzers/nyancatanalyzer.cpp:70-84 | The samples the bands read together stop at or before `s.size()/2`, and fewer than `kRainbowBands` lower-half samples are left over |
| History.AdvanceReadsOnlyGroups | src/analyzers/nyancatanalyzer.cpp:84-92 | Two frames of the same length that agree on the first `bands * spb` samples give the same new history, so the upper half and the remainder are never read |
| History.DegenerateFrameAppendsZero | src/analyzers/nyancatanalyzer.cpp:84-92 | If `s.size()/2 < kRainbowBands`, then `spb` is 0 and every band's new last slot is 0 |
| History.SlidingWindow | src/analyzers/nyancatanalyzer.cpp:72-93 | From the cleared history, after `k` frames each band's row holds its last `min(k, H)` values, in arrival order and right-aligned, with zeros to the left |
| History.FourFramesScenario | src/analyzers/nyancatanalyzer.cpp:84-92 | With 2 bands, 4 slots and unit scales, four frames with lower halves [1,0] … [4,0] leave band 0 holding 1,2,3,4 and band 1 all zero |
| Geometry.PxPerFrame | src/analyzers/nyancatanalyzer.cpp:97 | `px_per_frame` is `(width - kCatWidth + kRainbowOverlap) / H` truncated toward zero: the multiple of H nearest that value on the side of zero, with the same sign |
| Geometry.BaselineIncreasing | src/analyzers/nyancatanalyzer.cpp:102-105 | A band's baseline y is strictly greater than the baseline of every lower-numbered band |
| Geometry.TopOfCat | src/analyzers/nyancatanalyzer.cpp:102 | `top_of_cat` leaves equal gaps above and below the cat: the widget's height minus the cat's bottom edge equals the cat's top |
| Geometry.Baseline | src/analyzers/nyancatanalyzer.cpp:100-105 | Every band's baseline, `kCatHeight/(kRainbowBands+1) * (band + 0.5)` below the cat's top, lies strictly between the cat's top and bottom edges |
| Geometry.PointAt | src/analyzers/nyancatanalyzer.cpp:109 | When `width - kCatWidth + kRainbowOverlap` is positive, every point's x lies in `[0, width - kCatWidth + kRainbowOverlap)`. A point lies on its band's baseline exactly when its magnitude is 0 |
| Geometry.Polyline | src/analyzers/nyancatanalyzer.cpp:96-113 | The flat polyline holds, at the slot index of `(b, x)`, the point for slot `x` of band `b` |
| Geometry.PolylinePoint | src/analyzers/nyancatanalyzer.cpp:108-112 | The point at index `b*H + x` has x-coordinate `px_per_frame * x` and y-coordinate `baseline(b) + history[b*H + x] * kPixelScale` |
| Geometry.PolylineSpacing | src/analyzers/nyancatanalyzer.cpp:97-109 | Consecutive points of a band are `px_per_frame` apart horizontally, and all bands share the same x-coordinates |
| Geometry.AppendBandPoints | src/analyzers/nyancatanalyzer.cpp:107-112 | The inner loop appends exactly one band's `H` points, so the bands built so far grow by that whole band |
| Geometry.BuildPolyline | src/analyzers/nyancatanalyzer.cpp:98-113 | The nested loops that advance `dest` and `source` together produce exactly the flat polyline |
| Render.Hue | src/analyzers/nyancatanalyzer.cpp:40 | The hue `b*255/kRainbowBands` of every band lies in [0, 255) |
| Render.HueOrdered | src/analyzers/nyancatanalyzer.cpp:39-40 | Band hues `i*255/kRainbowBands` lie in [0, 255) and do not decrease with the band index |
| Render.Pens | src/analyzers/nyancatanalyzer.cpp:39-42 | There is one pen per band, with hues in [0, 255) in non-decreasing order and widths that together fit in the cat's height |
| Render.FullRebuild | src/analyzers/nyancatanalyzer.cpp:119-128 | A rebuild creates a buffer of the widget's size and fills it. It then draws each band's whole `H`-point polyline, starting at index `band*H`, in the order band `kRainbowBands-1` down to 0 |
| Render.IncrementalUpdate | src/analyzers/nyancatanalyzer.cpp:129-143 | An update scrolls the buffer left by `px_per_frame` and fills the gap at `buffer.width - px_per_frame` of width `px_per_frame`. It then draws, from band `kRainbowBands-1` down to 0, only the last two points of each band |
| Render.LastTwoPoints | src/analyzers/nyancatanalyzer.cpp:142 | A band's last two polyline points are the entries at `(b+1)*H - 2` and `(b+1)*H - 1` |
| Render.ScrolledPointsMeetNew | src/analyzers/nyancatanalyzer.cpp:129-143 | After a new frame, scrolling left by `px_per_frame` moves the old polyline's point for slot `x+1` exactly onto the new polyline's point for slot `x`: same y, x smaller by `px_per_frame`. The newly drawn last segment thus continues the scrolled one |
| Render.NewPixmap | src/analyzers/nyancatanalyzer.cpp:120 | `QPixmap(size())` is valid exactly when the widget has a positive width and height, and then has the widget's size |
| Render.CacheStep | src/analyzers/nyancatanalyzer.cpp:118-144 | A null buffer leads to a full rebuild and a valid buffer to an incremental update, which keeps the buffer. After a rebuild the buffer is valid, with the widget's size, exactly when the widget has a positive width and height |
| Render.FullRebuildDrawsAllPoints | src/analyzers/nyancatanalyzer.cpp:125-128 | A full rebuild draws `bands * H` points |
| Render.IncrementalDrawsTwoPointsPerBand | src/analyzers/nyancatanalyzer.cpp:140-143 | An incremental update draws `2 * bands` points, whatever the history length |
| Sprite.Tick | src/analyzers/nyancatanalyzer.cpp:56 | From a non-negative frame, the next frame is in [0, kCatFrameCount). It is one more than the last frame, except that it wraps to 0 after the last |
| Sprite.FrameAfterIsModulo | src/analyzers/nyancatanalyzer.cpp:54-56 | After `n` sprite ticks from frame 0, the frame is `n mod kCatFrameCount` |
| Sprite.CatDest | src/analyzers/nyancatanalyzer.cpp:153-154 | The cat rectangle is `kCatWidth × kCatHeight` and flush with the right edge. It is centred vertically: the gaps above and below differ by at most one pixel, on the side that truncation toward zero gives |
| NyanCatAnalyzer.Create | src/analyzers/nyancatanalyzer.cpp:30-37 | A new widget has an all-zero history of `bands * H` slots, frame 0 and a null buffer, and satisfies the state invariant |
| NyanCatAnalyzer.Resize | src/analyzers/nyancatanalyzer.cpp:62-66 | A resize always leaves the buffer null and keeps the history and the frame. Together with `Analyze`, the next paint therefore rebuilds in full |
| NyanCatAnalyzer.TimerEvent | src/analyzers/nyancatanalyzer.cpp:54-60 | Only the sprite's own timer advances the frame, wrapping after the last frame. The history, the buffer and the size never change |
| NyanCatAnalyzer.Analyze | src/analyzers/nyancatanalyzer.cpp:68-156 | The history advances only on a new frame. Afterwards the buffer is valid exactly when the widget has an area, and a valid buffer is kept. A null buffer is rebuilt in full from the new polyline. A valid buffer is updated incrementally whether or not a new frame arrived. Then the buffer is drawn, followed by the cat with the current frame |

## Left out

- The spectrum transform `transform` (lines 50-52) calls an FHT routine that is not part of this model. Frames are given sequences of magnitudes.
- The band scale curve `-cos(pi*i/(bands-1)) * 0.5 * 2.3^i` (line 46) uses floating-point `cos` and `pow`. The scales are a parameter.
- Floating-point rounding: the accumulator, the scaling, `kPixelScale` (the float nearest 0.02) and the float division before the truncation in `px_per_frame` are exact real arithmetic in the model.
- Integer overflow of `px_per_frame * x` and of widget sizes: integers are unbounded.
- Pixel contents: the background colour, antialiasing, pen cap and style, and what the fill, self-blit and polyline commands do to pixels (lines 120-147). The sprite source rectangle `CatSourceRect()` and the cat image (lines 32, 155) are also left out.
- Timer registration, `QTime` timing and debug logging (lines 33, 115-116, 149). The base class's handling of other timers (line 58) is not part of this model. For such timers the model leaves this widget's state unchanged.
- The widget name constant (line 26).
- Whether the scrolled and incrementally extended buffer shows the same pixels as a full rebuild is not modelled, because pixels are not. What the model does state is that the points meet: `Render.ScrolledPointsMeetNew`.
